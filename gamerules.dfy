/**
 * The backend's game state and what each request handler does to it.
 *
 * The state is the dictionary `game_state`: the move record, the board text
 * `obf67` replayed from it, the status, and one watermark per colour.  A
 * colour's watermark is the record length at the first move that colour
 * played by hand (a direct or a random move); 99999999 means it has none,
 * and only then may the agent play that colour.
 *
 * Each handler is a function from the state before the request to its
 * outcome and the state after it.  A handler that stops at a Python
 * `assert` (or inside `str2index`) raises: the request fails and the state
 * keeps whatever the handler had already written, which is modelled as the
 * outcome `Aborted`.
 */
module GameRules {
  import opened Wrappers
  import opened Board
  import opened Notation
  import opened Search
  import opened SearchFacts

  /** The watermark of a colour that has not been played by hand. */
  const Sentinel: nat := 99999999

  datatype Status = InProgress | Finished

  /** `game_state`: `game_record`, `obf67`, `gameState` and the two `*_can_be_agent` fields. */
  datatype GameState = GameState(
    record: string,
    obf67: string,
    status: Status,
    blackCanBeAgent: nat,
    whiteCanBeAgent: nat)

  /** What a request returns: the new state, a JSON error, or a raised exception. */
  datatype Outcome = Accepted | Refused(error: string) | Aborted

  const FinishedError: string := "Game is already finished."
  const IllegalError: string := "Illegal move."
  const NoUndoError: string := "No move to undo."

  /** `XO2BW`: the colour names used in the watermark keys and messages. */
  function ColourName(c: Side): string
  {
    match c
    case Black => "black"
    case White => "white"
  }

  /** The error `do_agent_move` returns for a colour already played by hand. */
  function AgentError(c: Side): string
  {
    ColourName(c) + " can not be an agent."
  }

  function Watermark(g: GameState, c: Side): nat
  {
    match c
    case Black => g.blackCanBeAgent
    case White => g.whiteCanBeAgent
  }

  function WithWatermark(g: GameState, c: Side, w: nat): GameState
  {
    match c
    case Black => g.(blackCanBeAgent := w)
    case White => g.(whiteCanBeAgent := w)
  }

  function Min(a: nat, b: nat): nat
  {
    if a <= b then a else b
  }

  /** `get_moves(*obf_to_bitboards(obf67))`: the legal squares of the side to move. */
  function LegalMoves(e: Engine, g: GameState): Bitboard
  {
    var (player, opponent) := e.toBitboards(g.obf67);
    e.moves(player, opponent)
  }

  /** The watermark update before a move by hand: `min(old, len(game_record))`. */
  function MarkHandMove(g: GameState, c: Side): GameState
  {
    WithWatermark(g, c, Min(Watermark(g, c), |g.record|))
  }

  /**
   * Appending a move to the record, replaying it, and marking the game
   * finished when the side to move in the replayed board has no legal move.
   */
  function Played(e: Engine, g: GameState, name: string): (h: GameState)
    ensures h.record == g.record + name
    ensures h.obf67 == e.replay(h.record)
    ensures h.status == (if HasMoves(e, h.obf67) then g.status else Finished)
    ensures h.blackCanBeAgent == g.blackCanBeAgent && h.whiteCanBeAgent == g.whiteCanBeAgent
  {
    var record := g.record + name;
    var obf := e.replay(record);
    var (player, opponent) := e.toBitboards(obf);
    g.(record := record, obf67 := obf,
       status := if e.moves(player, opponent) == {} then Finished else g.status)
  }

  /** `initial_game_state` and `reset_game`. */
  function InitialState(e: Engine): GameState
  {
    GameState("", e.initialObf, InProgress, Sentinel, Sentinel)
  }

  /** `make_move(move)`. */
  function AfterMakeMove(e: Engine, g: GameState, move: string): (r: (Outcome, GameState))
    requires EngineFacts(e) && g.obf67 == e.replay(g.record)
  {
    if g.status == Finished then (Refused(FinishedError), g)
    else if LegalMoves(e, g) == {} then (Aborted, g)
    else match CoordinateToIndex(move)
      case None => (Aborted, g)
      case Some(i) =>
        if i !in LegalMoves(e, g) then (Refused(IllegalError), g)
        else (Accepted, Played(e, MarkHandMove(g, SideOf(g.obf67)), move))
  }

  /**
   * `make_random_move`, where `square` is the square its scan stops at.
   * The watermark is updated before the handler's asserts.
   */
  function AfterRandomMove(e: Engine, g: GameState, square: nat): (r: (Outcome, GameState))
    requires EngineFacts(e) && g.obf67 == e.replay(g.record)
  {
    if g.status == Finished then (Refused(FinishedError), g)
    else
      var marked := MarkHandMove(g, SideOf(g.obf67));
      if LegalMoves(e, g) == {} then (Aborted, marked)
      else (Accepted, Played(e, marked, IndexToCoordinate(square)))
  }

  /** `undo_move`: drop the last move, resume the game, release the colour's watermark. */
  function AfterUndoMove(e: Engine, g: GameState): (r: (Outcome, GameState))
    requires EngineFacts(e)
  {
    if |g.record| == 0 then (Refused(NoUndoError), g)
    else
      var record := g.record[..if |g.record| >= 2 then |g.record| - 2 else 0];
      var obf := e.replay(record);
      var undone := g.(record := record, obf67 := obf, status := InProgress);
      var c := SideOf(obf);
      if Watermark(undone, c) == |record| then (Accepted, WithWatermark(undone, c, Sentinel))
      else (Accepted, undone)
  }

  /** `do_agent_move`: the watermark gate, then the move `get_optimal_move` chooses. */
  function AfterAgentMove(e: Engine, g: GameState): (r: (Outcome, GameState))
    requires EngineFacts(e) && g.obf67 == e.replay(g.record)
  {
    if g.status == Finished then (Refused(FinishedError), g)
    else if Watermark(g, SideOf(g.obf67)) != Sentinel then (Refused(AgentError(SideOf(g.obf67))), g)
    else
      var (player, opponent) := e.toBitboards(g.obf67);
      var name := AnswerText(OptimalMove(e, player, opponent));
      if !IsCoordinate(name) then (Aborted, g)
      else (Accepted, Played(e, g, name))
  }

  // ---------------------------------------------------------------------------
  // The invariant of the reachable states

  /**
   * A colour's watermark is the sentinel, or the even length of a record
   * prefix after which that colour was to move.
   */
  ghost predicate WatermarkFits(e: Engine, g: GameState, c: Side)
    requires EngineFacts(e)
  {
    var w := Watermark(g, c);
    w == Sentinel || (w < |g.record| && w % 2 == 0 && SideOf(e.replay(g.record[..w])) == c)
  }

  /**
   * What every state the handlers reach satisfies: the board is the replay
   * of the record, the record holds whole moves, the game is finished
   * exactly when the side to move cannot move, every earlier position of
   * the record had a legal move, and the watermarks fit the record.
   */
  ghost predicate Inv(e: Engine, g: GameState)
  {
    && EngineFacts(e)
    && g.obf67 == e.replay(g.record)
    && |g.record| % 2 == 0
    && (g.status == Finished <==> !HasMoves(e, g.obf67))
    && (forall n: nat :: n < |g.record| && n % 2 == 0 ==> HasMoves(e, e.replay(g.record[..n])))
    && WatermarkFits(e, g, Black)
    && WatermarkFits(e, g, White)
  }

  lemma InitialStateInv(e: Engine)
    requires EngineFacts(e)
    ensures Inv(e, InitialState(e))
  {
  }

  /**
   * A move played from a valid in-progress state by a two-character name
   * keeps the invariant when the side that was to move keeps or lowers its
   * watermark to the old record length, and the other's is untouched.
   */
  lemma {:induction false} PlayedInv(e: Engine, g: GameState, name: string, h: GameState)
    requires Inv(e, g) && g.status == InProgress && |name| == 2
    requires
      var c := SideOf(g.obf67);
      && h == Played(e, WithWatermark(g, c, Watermark(h, c)), name)
      && (Watermark(h, c) == Watermark(g, c) || Watermark(h, c) == |g.record|)
      && Watermark(h, if c == Black then White else Black) == Watermark(g, if c == Black then White else Black)
    ensures Inv(e, h)
  {
    var n := |g.record|;
    assert h.record[..n] == g.record;
    forall k: nat | k <= n ensures h.record[..k] == g.record[..k] {
      assert h.record[..k] == h.record[..n][..k];
    }
  }

  /**
   * `make_move` refuses, and changes nothing, on a finished game or an
   * illegal square; it accepts exactly the legal squares, appends the move
   * as given, and lowers only the mover's watermark, to at most the old
   * record length.
   */
  lemma MakeMoveSpec(e: Engine, g: GameState, move: string)
    requires Inv(e, g)
    ensures var (out, h) := AfterMakeMove(e, g, move);
      && (out != Accepted ==> h == g)
      && (out == Aborted <==> g.status == InProgress && !IsCoordinate(move))
      && (out == Refused(FinishedError) <==> g.status == Finished)
      && (out == Accepted <==>
            g.status == InProgress && CoordinateToIndex(move).Some?
            && CoordinateToIndex(move).value in LegalMoves(e, g))
      && (out == Accepted ==>
            && h.record == g.record + move && |move| == 2
            && Inv(e, h)
            && (h.status == Finished <==> !HasMoves(e, h.obf67))
            && Watermark(h, SideOf(g.obf67)) == Min(Watermark(g, SideOf(g.obf67)), |g.record|)
            && (forall c :: Watermark(h, c) <= Watermark(g, c))
            && (forall c :: c != SideOf(g.obf67) ==> Watermark(h, c) == Watermark(g, c)))
  {
    var (out, h) := AfterMakeMove(e, g, move);
    if out == Accepted {
      var c := SideOf(g.obf67);
      PlayedInv(e, g, move, h);
    }
  }

  /**
   * A random move on square `square` is the direct move by that square's
   * name: same outcome, same new state.
   */
  lemma RandomMoveIsMakeMove(e: Engine, g: GameState, square: nat)
    requires Inv(e, g) && g.status == InProgress && square in LegalMoves(e, g)
    ensures AfterRandomMove(e, g, square) == AfterMakeMove(e, g, IndexToCoordinate(square))
  {
    var (player, opponent) := e.toBitboards(g.obf67);
    assert OnBoard(e.moves(player, opponent));
    IndexRoundTrip(square);
  }

  /**
   * `make_random_move` refuses, and changes nothing, exactly on a finished
   * game; otherwise it plays the square it drew, keeps the invariant,
   * lowers the mover's watermark to at most the old record length and
   * leaves the other colour's alone.
   */
  lemma RandomMoveSpec(e: Engine, g: GameState, square: nat)
    requires Inv(e, g)
    requires g.status == InProgress ==> square in LegalMoves(e, g)
    ensures var (out, h) := AfterRandomMove(e, g, square);
      && (out == Refused(FinishedError) <==> g.status == Finished)
      && (out != Accepted ==> h == g)
      && out != Aborted
      && (out == Accepted ==>
            && h.record == g.record + IndexToCoordinate(square)
            && CoordinateToIndex(h.record[|g.record|..]) == Some(square)
            && Inv(e, h)
            && Watermark(h, SideOf(g.obf67)) == Min(Watermark(g, SideOf(g.obf67)), |g.record|)
            && (forall c :: Watermark(h, c) <= Watermark(g, c))
            && (forall c :: c != SideOf(g.obf67) ==> Watermark(h, c) == Watermark(g, c)))
  {
    if g.status == InProgress {
      RandomMoveIsMakeMove(e, g, square);
      MakeMoveSpec(e, g, IndexToCoordinate(square));
      var h := AfterRandomMove(e, g, square).1;
      assert h.record[|g.record|..] == IndexToCoordinate(square);
      IndexRoundTrip(square);
    }
  }

  /**
   * `undo_move` refuses, and changes nothing, exactly on an empty record;
   * otherwise it drops exactly the last move, resumes the game, keeps the
   * invariant, and raises to the sentinel exactly the watermarks equal to
   * the new record length, which can only be the colour now to move.
   */
  lemma UndoMoveSpec(e: Engine, g: GameState)
    requires Inv(e, g)
    ensures var (out, h) := AfterUndoMove(e, g);
      && (out == Refused(NoUndoError) <==> |g.record| == 0)
      && (out != Accepted ==> h == g)
      && out != Aborted
      && (out == Accepted ==>
            && h.record + g.record[|h.record|..] == g.record
            && |g.record| - |h.record| == 2
            && h.status == InProgress
            && Inv(e, h)
            && (forall c :: Watermark(h, c) == Watermark(g, c) ||
                  (c == SideOf(h.obf67) && Watermark(g, c) == |h.record| && Watermark(h, c) == Sentinel))
            && (forall c :: Watermark(g, c) == |h.record| ==> Watermark(h, c) == Sentinel))
  {
    if |g.record| > 0 {
      var (out, h) := AfterUndoMove(e, g);
      var n := |h.record|;
      assert n + 2 == |g.record|;
      assert h.record == g.record[..n];
      forall k: nat | k <= n ensures h.record[..k] == g.record[..k] {
        assert h.record[..k] == g.record[..n][..k];
      }
      var c := SideOf(h.obf67);
      assert HasMoves(e, e.replay(g.record[..n]));
      forall d | true ensures WatermarkFits(e, h, d) {
        var w := Watermark(g, d);
        if w != Sentinel && w != n {
          assert w % 2 == 0 && n % 2 == 0 && w < n + 2;
        }
        if d != c && w == n {
          assert SideOf(e.replay(g.record[..w])) == d;
        }
      }
    }
  }

  /**
   * `do_agent_move` refuses, and changes nothing, on a finished game or
   * when the colour to move has a watermark; otherwise it plays the move
   * `get_optimal_move` chooses, which is a legal square when the search or
   * the table chose it, keeps the invariant and leaves the watermarks alone.
   */
  lemma AgentMoveSpec(e: Engine, g: GameState)
    requires Inv(e, g)
    ensures var (out, h) := AfterAgentMove(e, g);
      && (out == Refused(FinishedError) <==> g.status == Finished)
      && (out == Refused(AgentError(SideOf(g.obf67))) <==>
            g.status == InProgress && Watermark(g, SideOf(g.obf67)) != Sentinel)
      && (out != Accepted ==> h == g)
      && (out == Aborted ==>
            var (player, opponent) := e.toBitboards(g.obf67);
            OptimalMove(e, player, opponent).FromEdax?)
      && (out == Accepted ==>
            var (player, opponent) := e.toBitboards(g.obf67);
            var answer := OptimalMove(e, player, opponent);
            && g.status == InProgress
            && Watermark(g, SideOf(g.obf67)) == Sentinel
            && h.record == g.record + AnswerText(answer)
            && CoordinateToIndex(AnswerText(answer)).Some?
            && (answer.Proven? || answer.FromTable? ==>
                  CoordinateToIndex(AnswerText(answer)).value in LegalMoves(e, g))
            && Inv(e, h)
            && (forall c :: Watermark(h, c) == Watermark(g, c)))
  {
    assert FinishedError != AgentError(Black) && FinishedError != AgentError(White);
    if g.status == InProgress && Watermark(g, SideOf(g.obf67)) == Sentinel {
      var (player, opponent) := e.toBitboards(g.obf67);
      OptimalMoveTiers(e, player, opponent);
      var answer := OptimalMove(e, player, opponent);
      var (out, h) := AfterAgentMove(e, g);
      if out == Accepted {
        PlayedInv(e, g, AnswerText(answer), h);
        match answer
        case Proven(_, move) => IndexRoundTrip(move.square);
        case FromTable(square) => IndexRoundTrip(square);
        case _ =>
      }
    }
  }

  /** Undoing an accepted direct move restores the state before it. */
  lemma UndoAfterMakeMove(e: Engine, g: GameState, move: string)
    requires Inv(e, g) && AfterMakeMove(e, g, move).0 == Accepted
    ensures AfterUndoMove(e, AfterMakeMove(e, g, move).1) == (Accepted, g)
  {
    MakeMoveSpec(e, g, move);
    UndoRestores(e, g, AfterMakeMove(e, g, move).1);
  }

  /** Undoing an accepted random move restores the state before it. */
  lemma UndoAfterRandomMove(e: Engine, g: GameState, square: nat)
    requires Inv(e, g) && g.status == InProgress && square in LegalMoves(e, g)
    ensures AfterUndoMove(e, AfterRandomMove(e, g, square).1) == (Accepted, g)
  {
    RandomMoveIsMakeMove(e, g, square);
    MakeMoveSpec(e, g, IndexToCoordinate(square));
    UndoAfterMakeMove(e, g, IndexToCoordinate(square));
  }

  /** Undoing an accepted agent move restores the state before it. */
  lemma UndoAfterAgentMove(e: Engine, g: GameState)
    requires Inv(e, g) && AfterAgentMove(e, g).0 == Accepted
    ensures AfterUndoMove(e, AfterAgentMove(e, g).1) == (Accepted, g)
  {
    AgentMoveSpec(e, g);
    UndoRestores(e, g, AfterAgentMove(e, g).1);
  }

  /**
   * Undo after one move by the colour to move: the move added two
   * characters, and the mover's watermark was kept or set to the old length.
   */
  lemma UndoRestores(e: Engine, g: GameState, h: GameState)
    requires Inv(e, g) && g.status == InProgress
    requires |h.record| == |g.record| + 2 && h.record[..|g.record|] == g.record
    requires
      var c := SideOf(g.obf67);
      && (Watermark(h, c) == Watermark(g, c) || Watermark(h, c) == Min(Watermark(g, c), |g.record|))
      && (forall d :: d != c ==> Watermark(h, d) == Watermark(g, d))
    requires h.obf67 == e.replay(h.record)
    ensures AfterUndoMove(e, h) == (Accepted, g)
  {
    var c := SideOf(g.obf67);
    var (out, u) := AfterUndoMove(e, h);
    assert u.record == g.record;
    forall d ensures Watermark(u, d) == Watermark(g, d) {
    }
  }
}
