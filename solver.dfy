/**
 * The backend's two search loops, `simple_solver` and
 * `search_best_move_from_table`, proved to compute the functions `Negamax`
 * and `TableMove` of module `Search`.
 */
module Solver {
  import opened Wrappers
  import opened Board
  import opened Scanning
  import opened Search
  import opened SearchFacts

  /** `simple_solver`: the recursion of `Negamax`, with the loop over the squares. */
  method SimpleSolver(e: Engine, player: Bitboard, opponent: Bitboard, depth: nat)
    returns (score: int, move: SolverMove)
    requires EngineFacts(e)
    ensures Eval(score, move) == Negamax(e, player, opponent, depth)
    decreases depth, PassRank(e, player, opponent)
  {
    var moves := e.moves(player, opponent);
    if moves == {} {
      if e.moves(opponent, player) == {} {
        return e.finalScore(player, opponent), GameEnd;
      }
      if depth == 0 {
        return UnknownScore, NotSearched;
      }
      var s, _ := SimpleSolver(e, opponent, player, depth);
      if s == UnknownScore {
        return UnknownScore, PassMove;
      }
      return -s, PassMove;
    }
    if depth == 0 {
      return UnknownScore, NotSearched;
    }
    var bestScore, bestMove := UnknownScore, NoMove;
    ghost var f := Children(e, player, opponent, depth);
    for i := 0 to Squares
      invariant bestScore == Scan(f, i).best && bestMove == MoveOf(Scan(f, i).at)
    {
      assert f(i) == ChildValue(e, player, opponent, depth, i);
      if i in moves {
        var flipped := e.flip(i, player, opponent);
        assert flipped != {};
        var s, _ := SimpleSolver(e, Xor(opponent, flipped), Xor(Xor(player, flipped), {i}), depth - 1);
        if s == UnknownScore {
          continue;
        }
        s := -s;
        if s > bestScore {
          bestScore := s;
          bestMove := At(i);
        }
      }
    }
    return bestScore, bestMove;
  }

  /** `search_best_move_from_table`: the loop over the replies. */
  method SearchBestMoveFromTable(e: Engine, player: Bitboard, opponent: Bitboard) returns (bestI: Option<nat>)
    requires EngineFacts(e)
    ensures bestI == TableMove(e, player, opponent)
  {
    var moves := e.moves(player, opponent);
    var negaMaxNextResult := UnknownScore;
    bestI := None;
    ghost var f := Replies(e, player, opponent);
    for i := 0 to Squares
      invariant Running(negaMaxNextResult, bestI) == Scan(f, i)
    {
      assert f(i) == ReplyValue(e, player, opponent, i);
      if i in moves {
        var flipped := e.flip(i, player, opponent);
        assert flipped != {};
        var nextPlayer := Xor(opponent, flipped);
        var nextOpponent := Xor(Xor(player, flipped), {i});
        var nextMoves := e.moves(nextPlayer, nextOpponent);
        var passFlag := 1;
        if nextMoves == {} {
          if e.moves(nextOpponent, nextPlayer) == {} {
            continue;
          } else {
            nextPlayer, nextOpponent := nextOpponent, nextPlayer;
            passFlag := -1;
          }
        }
        var nextQuery := TableKey(e, nextPlayer, nextOpponent);
        if nextQuery in e.table {
          var nextResult := e.table[nextQuery];
          if negaMaxNextResult < -CategoryValue(nextResult) * passFlag {
            negaMaxNextResult := -CategoryValue(nextResult) * passFlag;
            bestI := Some(i);
          }
        }
      }
    }
  }

  /** `simple_solver_root`: the search result, only when it is a proven win. */
  method SimpleSolverRoot(e: Engine, player: Bitboard, opponent: Bitboard, depth: nat)
    returns (answer: Option<Eval>)
    requires EngineFacts(e)
    ensures answer == ProvenWin(e, player, opponent, depth)
  {
    var score, move := SimpleSolver(e, player, opponent, depth);
    if score > 0 {
      return Some(Eval(score, move));
    }
    return None;
  }

  /**
   * `get_optimal_move`: the opening move, the search, the table, and the
   * external solver, in that order.  The two `assert`s on the shape of the
   * answer are left to the caller.
   */
  method GetOptimalMove(e: Engine, player: Bitboard, opponent: Bitboard) returns (answer: Answer)
    requires EngineFacts(e)
    ensures answer == OptimalMove(e, player, opponent)
  {
    if Popcount(player + opponent) == 4 {
      return Opening;
    }
    var dfsAnswer := SimpleSolverRoot(e, player, opponent, RootDepth);
    if dfsAnswer.Some? {
      return Proven(dfsAnswer.value.score, dfsAnswer.value.move);
    }
    if Popcount(player + opponent) < TableDiscLimit {
      var tableAnswer := SearchBestMoveFromTable(e, player, opponent);
      if tableAnswer.Some? {
        return FromTable(tableAnswer.value);
      }
    }
    return FromEdax(e.edax(player, opponent));
  }
}
