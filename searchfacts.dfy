/**
 * What the move selection of module `Search` guarantees: scores are disc
 * differentials or "unknown", the search picks the first best reply, the
 * root reports only proven wins, the table tier picks the first best table
 * verdict, and every tier of `get_optimal_move` but the external solver
 * answers a legal square.
 */
module SearchFacts {
  import opened Wrappers
  import opened Board
  import opened Notation
  import opened Scanning
  import opened Search

  /** Every decided score is a disc differential; the rest are "unknown". */
  lemma {:induction false} NegamaxBounds(e: Engine, player: Bitboard, opponent: Bitboard, depth: nat)
    requires EngineFacts(e)
    ensures var s := Negamax(e, player, opponent, depth).score;
      s == UnknownScore || -64 <= s <= 64
    decreases depth, PassRank(e, player, opponent), 2
  {
    if e.moves(player, opponent) == {} {
      if e.moves(opponent, player) != {} && depth > 0 {
        NegamaxBounds(e, opponent, player, depth);
      }
    } else if depth > 0 {
      var f := Children(e, player, opponent, depth);
      assert forall i: nat :: f(i) == ChildValue(e, player, opponent, depth, i);
      ChildrenBounds(e, player, opponent, depth);
      ScanFindsFirstMaximum(f, Squares);
    }
  }

  /** A decided reply value is the negated score of the position after the move. */
  lemma ChildValueIsReplyScore(e: Engine, player: Bitboard, opponent: Bitboard, depth: nat, i: nat)
    requires ChildValue(e, player, opponent, depth, i).Some?
    ensures depth > 0 && IsLegal(e, player, opponent, i)
    ensures ChildValue(e, player, opponent, depth, i).value ==
      -Negamax(e, Xor(opponent, e.flip(i, player, opponent)),
               Xor(Xor(player, e.flip(i, player, opponent)), {i}), depth - 1).score
  {
  }

  /** A decided reply value is a disc differential. */
  lemma {:induction false} ChildBounds(e: Engine, player: Bitboard, opponent: Bitboard, depth: nat, i: nat)
    requires EngineFacts(e)
    ensures ChildValue(e, player, opponent, depth, i).Some? ==>
      -64 <= ChildValue(e, player, opponent, depth, i).value <= 64
    decreases depth, 0, 0
  {
    if ChildValue(e, player, opponent, depth, i).Some? {
      ChildValueIsReplyScore(e, player, opponent, depth, i);
      NegamaxBounds(e, Xor(opponent, e.flip(i, player, opponent)),
                    Xor(Xor(player, e.flip(i, player, opponent)), {i}), depth - 1);
    }
  }

  /** Every decided reply value is a disc differential. */
  lemma ChildrenBounds(e: Engine, player: Bitboard, opponent: Bitboard, depth: nat)
    requires EngineFacts(e)
    ensures forall i: nat :: ChildValue(e, player, opponent, depth, i).Some? ==>
      -64 <= ChildValue(e, player, opponent, depth, i).value <= 64
    decreases depth, 0, 1
  {
    forall i: nat {
      ChildBounds(e, player, opponent, depth, i);
    }
  }

  /** The base cases: the game is over, the budget is used up, or the side to move passes. */
  lemma NegamaxBaseCases(e: Engine, player: Bitboard, opponent: Bitboard, depth: nat)
    ensures IsTerminal(e, player, opponent) ==>
      Negamax(e, player, opponent, depth) == Eval(e.finalScore(player, opponent), GameEnd)
    ensures !IsTerminal(e, player, opponent) && depth == 0 ==>
      Negamax(e, player, opponent, depth) == Eval(UnknownScore, NotSearched)
    ensures e.moves(player, opponent) == {} && !IsTerminal(e, player, opponent) && depth > 0 ==>
      var child := Negamax(e, opponent, player, depth).score;
      Negamax(e, player, opponent, depth) ==
        Eval(if child == UnknownScore then UnknownScore else -child, PassMove)
  {
  }

  /**
   * When the side to move has a legal move and the budget is not used up,
   * the result is the first legal square, in increasing order, whose reply
   * has the largest decided value, with that value as the score; or "unknown"
   * with no move when no reply was decided.
   */
  lemma NegamaxBestMove(e: Engine, player: Bitboard, opponent: Bitboard, depth: nat)
    requires EngineFacts(e)
    requires e.moves(player, opponent) != {} && depth > 0
    ensures var r := Negamax(e, player, opponent, depth);
      && (r.move == NoMove <==> forall i: nat :: ChildValue(e, player, opponent, depth, i).None?)
      && (r.move == NoMove ==> r.score == UnknownScore)
      && (r.move != NoMove ==>
            && r.move.At?
            && IsLegal(e, player, opponent, r.move.square)
            && ChildValue(e, player, opponent, depth, r.move.square) == Some(r.score)
            && (forall i: nat :: ChildValue(e, player, opponent, depth, i).Some? ==>
                  ChildValue(e, player, opponent, depth, i).value <= r.score)
            && (forall i: nat :: i < r.move.square && ChildValue(e, player, opponent, depth, i).Some? ==>
                  ChildValue(e, player, opponent, depth, i).value < r.score))
  {
    var f := Children(e, player, opponent, depth);
    assert forall i: nat :: f(i) == ChildValue(e, player, opponent, depth, i);
    ChildrenBounds(e, player, opponent, depth);
    ScanFindsFirstMaximum(f, Squares);
    forall i: nat | i >= Squares ensures ChildValue(e, player, opponent, depth, i).None? { }
    var r := Scan(f, Squares);
    if r.at.Some? {
      ChildValueIsReplyScore(e, player, opponent, depth, r.at.value);
    }
  }

  /**
   * For a side with a legal move, the root reports a move exactly when some
   * square has a reply decided as a win for it; the move it reports is a
   * legal square, named in `[a-h][1-8]`, won by at most 64 discs.
   */
  lemma RootFindsProvenWin(e: Engine, player: Bitboard, opponent: Bitboard, depth: nat)
    requires EngineFacts(e)
    requires e.moves(player, opponent) != {} && depth > 0
    ensures var root := ProvenWin(e, player, opponent, depth);
      && (root.Some? <==>
            exists i: nat :: (IsLegal(e, player, opponent, i)
              && ChildValue(e, player, opponent, depth, i).Some?
              && ChildValue(e, player, opponent, depth, i).value > 0))
      && (root.Some? ==>
            && 0 < root.value.score <= 64
            && root.value.move.At?
            && IsLegal(e, player, opponent, root.value.move.square)
            && IsCoordinate(MoveText(root.value.move)))
  {
    NegamaxBestMove(e, player, opponent, depth);
    NegamaxBounds(e, player, opponent, depth);
    var r := Negamax(e, player, opponent, depth);
    if r.move.At? && r.score > 0 {
      assert ChildValue(e, player, opponent, depth, r.move.square).Some?;
    }
    forall i: nat | ChildValue(e, player, opponent, depth, i).Some?
      ensures IsLegal(e, player, opponent, i)
    {
      ChildValueIsReplyScore(e, player, opponent, depth, i);
    }
  }

  /** Every table verdict lies in [-4, 4], above the "unknown" start value. */
  lemma ReplyValueBounds(e: Engine, player: Bitboard, opponent: Bitboard, i: nat)
    ensures ReplyValue(e, player, opponent, i).Some? ==>
      && IsLegal(e, player, opponent, i)
      && -4 <= ReplyValue(e, player, opponent, i).value <= 4
  {
  }

  /**
   * The table tier answers no square exactly when no legal reply has a table
   * entry; otherwise it answers the first legal square whose reply has the
   * largest verdict.
   */
  lemma TableMoveIsFirstBest(e: Engine, player: Bitboard, opponent: Bitboard)
    ensures var t := TableMove(e, player, opponent);
      && (t.None? <==> forall i: nat :: ReplyValue(e, player, opponent, i).None?)
      && (t.Some? ==>
            var k := t.value;
            && IsLegal(e, player, opponent, k)
            && ReplyValue(e, player, opponent, k).Some?
            && (forall i: nat :: ReplyValue(e, player, opponent, i).Some? ==>
                  ReplyValue(e, player, opponent, i).value <= ReplyValue(e, player, opponent, k).value)
            && (forall i: nat :: i < k && ReplyValue(e, player, opponent, i).Some? ==>
                  ReplyValue(e, player, opponent, i).value < ReplyValue(e, player, opponent, k).value))
  {
    var f := Replies(e, player, opponent);
    assert forall i: nat :: f(i) == ReplyValue(e, player, opponent, i);
    forall i: nat | i < Squares && f(i).Some? ensures f(i).value > UnknownScore {
      ReplyValueBounds(e, player, opponent, i);
    }
    ScanFindsFirstMaximum(f, Squares);
    if TableMove(e, player, opponent).Some? {
      ReplyValueBounds(e, player, opponent, TableMove(e, player, opponent).value);
    }
  }

  /**
   * For a side with a legal move: the opening move is played exactly on a
   * four-disc board; a search answer is a proven win on a legal square; the
   * table is used only below 28 discs and after the search found no win, and
   * answers a legal square; the external solver is asked only when both
   * earlier tiers had nothing.  Every answer but the external solver's is a
   * square name in `[a-h][1-8]`.
   */
  lemma OptimalMoveTiers(e: Engine, player: Bitboard, opponent: Bitboard)
    requires EngineFacts(e)
    requires e.moves(player, opponent) != {}
    ensures var a := OptimalMove(e, player, opponent);
      && (a.Opening? <==> Discs(player, opponent) == 4)
      && (a.Proven? ==>
            && a.score > 0
            && a.move.At?
            && IsLegal(e, player, opponent, a.move.square))
      && (a.FromTable? ==>
            && Discs(player, opponent) < 28
            && ProvenWin(e, player, opponent, RootDepth).None?
            && IsLegal(e, player, opponent, a.square))
      && (a.FromEdax? ==>
            && ProvenWin(e, player, opponent, RootDepth).None?
            && (Discs(player, opponent) >= 28 || TableMove(e, player, opponent).None?))
      && (!a.FromEdax? ==> IsCoordinate(AnswerText(a)))
  {
    RootFindsProvenWin(e, player, opponent, RootDepth);
    TableMoveIsFirstBest(e, player, opponent);
  }
}
