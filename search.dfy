/**
 * What the backend's move selection computes, as functions: the
 * depth-bounded negamax `simple_solver`, its root wrapper
 * `simple_solver_root`, the table tier `search_best_move_from_table` and the
 * cascade `get_optimal_move`.  The loops that compute the first two tiers are
 * the methods of module `Solver`; the facts about these functions are in
 * module `SearchFacts`.
 */
module Search {
  import opened Wrappers
  import opened Board
  import opened Notation
  import opened Scanning

  /** The number of squares both loops run over. */
  const Squares: nat := 64

  /** The depth `get_optimal_move` gives `simple_solver_root`. */
  const RootDepth: nat := 3

  /** Below this many discs the table tier is consulted: `64 - 36`. */
  const TableDiscLimit: nat := 64 - 36

  // ---------------------------------------------------------------------------
  // simple_solver

  /** The move part of `simple_solver`'s result. */
  datatype SolverMove =
    | At(square: nat)  // index2str(square)
    | GameEnd          // "end": neither side can move
    | PassMove         // "ps": the side to move must pass
    | NotSearched      // "unknown": the depth budget is used up
    | NoMove           // "": no move had a decided score

  /** `simple_solver`'s result: a score for the side to move, and a move. */
  datatype Eval = Eval(score: int, move: SolverMove)

  /** The text `simple_solver` returns as the move. */
  function MoveText(m: SolverMove): string
  {
    match m
    case At(square) => IndexToCoordinate(square)
    case GameEnd => "end"
    case PassMove => "ps"
    case NotSearched => "unknown"
    case NoMove => ""
  }

  /** 1 when the side to move must pass; a pass is followed by a position that is not one. */
  function PassRank(e: Engine, player: Bitboard, opponent: Bitboard): nat
  {
    if e.moves(player, opponent) == {} then 1 else 0
  }

  /** The move a finished loop reports: the square it kept, or none. */
  function MoveOf(at: Option<nat>): SolverMove
  {
    if at.Some? then At(at.value) else NoMove
  }

  /** `simple_solver(player, opponent, depth)`. */
  function Negamax(e: Engine, player: Bitboard, opponent: Bitboard, depth: nat): Eval
    decreases depth, PassRank(e, player, opponent), 2
  {
    if e.moves(player, opponent) == {} then
      if e.moves(opponent, player) == {} then Eval(e.finalScore(player, opponent), GameEnd)
      else if depth == 0 then Eval(UnknownScore, NotSearched)
      else
        var score := Negamax(e, opponent, player, depth).score;
        if score == UnknownScore then Eval(UnknownScore, PassMove) else Eval(-score, PassMove)
    else if depth == 0 then Eval(UnknownScore, NotSearched)
    else
      var r := Scan(Children(e, player, opponent, depth), Squares);
      Eval(r.best, MoveOf(r.at))
  }

  /** The values of the replies, square by square. */
  function Children(e: Engine, player: Bitboard, opponent: Bitboard, depth: nat): nat -> Option<int>
    decreases depth, 0, 1
  {
    (i: nat) => ChildValue(e, player, opponent, depth, i)
  }

  /**
   * The value of playing square i to the side to move: the negated score of
   * the position after it, searched one ply shallower; `None` when square i
   * is not a legal move or that score is unknown.
   */
  function ChildValue(e: Engine, player: Bitboard, opponent: Bitboard, depth: nat, i: nat): Option<int>
    decreases depth, 0, 0
  {
    if depth == 0 || i >= 64 || i !in e.moves(player, opponent) then None
    else
      var flipped := e.flip(i, player, opponent);
      var score := Negamax(e, Xor(opponent, flipped), Xor(Xor(player, flipped), {i}), depth - 1).score;
      if score == UnknownScore then None else Some(-score)
  }

  /** What `simple_solver_root` returns: the search result, only when it is a proven win. */
  function ProvenWin(e: Engine, player: Bitboard, opponent: Bitboard, depth: nat): Option<Eval>
  {
    var r := Negamax(e, player, opponent, depth);
    if r.score > 0 then Some(r) else None
  }

  // ---------------------------------------------------------------------------
  // search_best_move_from_table

  /**
   * The table's verdict on playing square i, as `-int(result) * pass_flag`:
   * `None` when i is not legal, when the game ends after it, or when the
   * position after it (with a forced pass resolved, which flips the sign) is
   * not in the table.
   */
  function ReplyValue(e: Engine, player: Bitboard, opponent: Bitboard, i: nat): Option<int>
  {
    if i >= 64 || i !in e.moves(player, opponent) then None
    else
      var flipped := e.flip(i, player, opponent);
      var nextPlayer, nextOpponent := Xor(opponent, flipped), Xor(Xor(player, flipped), {i});
      if IsTerminal(e, nextPlayer, nextOpponent) then None
      else
        var forcedPass := e.moves(nextPlayer, nextOpponent) == {};
        var passFlag := if forcedPass then -1 else 1;
        var key := if forcedPass then TableKey(e, nextOpponent, nextPlayer)
                   else TableKey(e, nextPlayer, nextOpponent);
        if key in e.table then Some(-CategoryValue(e.table[key]) * passFlag) else None
  }

  /** The table verdicts, square by square. */
  function Replies(e: Engine, player: Bitboard, opponent: Bitboard): nat -> Option<int>
  {
    (i: nat) => ReplyValue(e, player, opponent, i)
  }

  /** `search_best_move_from_table`: the square it returns, if any. */
  function TableMove(e: Engine, player: Bitboard, opponent: Bitboard): Option<nat>
  {
    Scan(Replies(e, player, opponent), Squares).at
  }

  // ---------------------------------------------------------------------------
  // get_optimal_move

  /** Which tier answered, and with what. */
  datatype Answer =
    | Opening                               // the fixed first move "f5"
    | Proven(score: int, move: SolverMove)  // simple_solver_root's proven win
    | FromTable(square: nat)                // search_best_move_from_table's square
    | FromEdax(name: string)                // the external solver's principal move

  /** The move text `get_optimal_move` returns. */
  function AnswerText(a: Answer): string
  {
    match a
    case Opening => "f5"
    case Proven(_, move) => MoveText(move)
    case FromTable(square) => IndexToCoordinate(square)
    case FromEdax(name) => name
  }

  /** What `get_optimal_move(player, opponent)` answers: the tiers, tried in order. */
  function OptimalMove(e: Engine, player: Bitboard, opponent: Bitboard): Answer
  {
    if Discs(player, opponent) == 4 then Opening
    else
      var dfs := ProvenWin(e, player, opponent, RootDepth);
      if dfs.Some? then Proven(dfs.value.score, dfs.value.move)
      else if Discs(player, opponent) < TableDiscLimit && TableMove(e, player, opponent).Some? then
        FromTable(TableMove(e, player, opponent).value)
      else FromEdax(e.edax(player, opponent))
  }
}
