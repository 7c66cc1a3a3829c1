/**
 * The backend's one game session: the global `game_state` dictionary and
 * the request handlers that update it in place.
 *
 * Each handler is proved to leave the fields as the matching function of
 * module `GameRules` says.  The session also keeps, as ghost state, the
 * record lengths at which a move was played by hand (`make_move` or
 * `make_random_move`); each colour's watermark is proved to be the first of
 * that colour's hand moves, or 99999999 when there is none.
 */
module Session {
  import opened Wrappers
  import opened Board
  import opened Notation
  import opened Search
  import opened Solver
  import opened GameRules

  /** The record lengths in `plies` at which colour c was to move. */
  ghost function PliesOf(e: Engine, plies: set<nat>, record: string, c: Side): set<nat>
    requires EngineFacts(e)
  {
    set n | n in plies && n < |record| && SideOf(e.replay(record[..n])) == c
  }

  /** `w` is the smaller of the sentinel and the first of `plies`. */
  ghost predicate IsWatermark(w: nat, plies: set<nat>)
  {
    && (w == Sentinel || w in plies)
    && w <= Sentinel
    && (forall n :: n in plies ==> w <= n)
  }

  /** A move by the agent leaves the hand moves of both colours alone. */
  lemma {:induction false} PliesAfterAgentMove(e: Engine, plies: set<nat>, record: string, name: string, d: Side)
    requires EngineFacts(e)
    requires forall k :: k in plies ==> k < |record|
    ensures PliesOf(e, plies, record + name, d) == PliesOf(e, plies, record, d)
  {
    forall k: nat | k <= |record|
      ensures (record + name)[..k] == record[..k]
    {
      assert (record + name)[..k] == (record + name)[..|record|][..k];
    }
  }

  /** A move by hand at the end of the record adds one ply, to the colour that was to move. */
  lemma {:induction false} PliesAfterHandMove(e: Engine, plies: set<nat>, record: string, name: string, d: Side)
    requires EngineFacts(e)
    requires forall k :: k in plies ==> k < |record|
    requires |name| > 0
    ensures PliesOf(e, plies + {|record|}, record + name, d) ==
      PliesOf(e, plies, record, d) + (if SideOf(e.replay(record)) == d then {|record|} else {})
  {
    forall k: nat | k <= |record|
      ensures (record + name)[..k] == record[..k]
    {
      assert (record + name)[..k] == (record + name)[..|record|][..k];
    }
    assert record[..|record|] == record;
  }

  /** Cutting the record keeps the colour of every ply before the cut. */
  lemma {:induction false} PliesAfterCut(e: Engine, plies: set<nat>, record: string, m: nat, c: Side)
    requires EngineFacts(e) && m <= |record|
    ensures PliesOf(e, (set n | n in plies && n < m), record[..m], c) ==
      set n | n in PliesOf(e, plies, record, c) && n < m
  {
    forall n: nat | n < m
      ensures record[..m][..n] == record[..n]
    {
    }
  }

  /** A hand move at length n, after every earlier ply, lowers the watermark to at most n. */
  lemma WatermarkAfterHandMove(w: nat, plies: set<nat>, n: nat)
    requires IsWatermark(w, plies)
    requires forall k :: k in plies ==> k < n
    ensures IsWatermark(Min(w, n), plies + {n})
  {
  }

  /**
   * Dropping the ply at length m, the last of the even plies below m + 2,
   * leaves a watermark unchanged unless it was m, and then it is the sentinel.
   */
  lemma WatermarkAfterUndo(w: nat, plies: set<nat>, m: nat)
    requires IsWatermark(w, plies)
    requires m % 2 == 0
    requires forall k :: k in plies ==> k < m + 2 && k % 2 == 0
    ensures IsWatermark(if w == m then Sentinel else w, set k | k in plies && k < m)
  {
    if w != m && w in plies {
      assert w < m;
    }
  }

  /**
   * With a record no longer than the sentinel, a colour's watermark is the
   * sentinel exactly when the colour has no hand move.
   */
  lemma WatermarkIsSentinelIffNoPlies(w: nat, plies: set<nat>, bound: nat)
    requires IsWatermark(w, plies)
    requires bound <= Sentinel && forall k :: k in plies ==> k < bound
    ensures w == Sentinel <==> plies == {}
  {
  }

  /** `make_random_move`'s scan: the square holding the (k+1)-th set bit. */
  method NthSquare(moves: Bitboard, k: nat) returns (squareIndex: nat)
    requires k < Popcount(moves)
    ensures squareIndex in moves && squareIndex < 64
    ensures CountBelow(moves, squareIndex) == k
  {
    squareIndex := k;
    for i := 0 to 64
      invariant CountBelow(moves, i) <= k
      invariant squareIndex == k - CountBelow(moves, i)
    {
      if i in moves {
        if squareIndex == 0 {
          squareIndex := i;
          return;
        }
        squareIndex := squareIndex - 1;
      }
    }
  }

  /**
   * Every legal square is reached by exactly one draw below `popcount`:
   * the draw that counts the legal squares before it.
   */
  lemma DrawsMatchSquares(moves: Bitboard, s: nat, t: nat)
    requires s in moves && s < 64 && t in moves && t < 64
    ensures CountBelow(moves, s) < Popcount(moves)
    ensures CountBelow(moves, s) == CountBelow(moves, t) ==> s == t
  {
    CountBelowStrict(moves, s, 64);
    if s < t {
      CountBelowStrict(moves, s, t);
    } else if t < s {
      CountBelowStrict(moves, t, s);
    }
  }

  class GameSession {
    var record: string
    var obf67: string
    var status: Status
    var blackCanBeAgent: nat
    var whiteCanBeAgent: nat
    const engine: Engine
    /** The record lengths at which a move was played by hand. */
    ghost var handPlies: set<nat>

    function State(): GameState
      reads this
    {
      GameState(record, obf67, status, blackCanBeAgent, whiteCanBeAgent)
    }

    /** The hand moves of colour c in the current record. */
    ghost function PliesBy(c: Side): set<nat>
      reads this
      requires EngineFacts(engine)
    {
      PliesOf(engine, handPlies, record, c)
    }

    ghost predicate Valid()
      reads this
    {
      && Inv(engine, State())
      && (forall n :: n in handPlies ==> n < |record| && n % 2 == 0)
      && IsWatermark(blackCanBeAgent, PliesBy(Black))
      && IsWatermark(whiteCanBeAgent, PliesBy(White))
    }

    /** `initial_game_state`. */
    constructor(e: Engine)
      requires EngineFacts(e)
      ensures Valid()
      ensures engine == e && State() == InitialState(e) && handPlies == {}
    {
      engine := e;
      record := "";
      obf67 := e.initialObf;
      status := InProgress;
      blackCanBeAgent := Sentinel;
      whiteCanBeAgent := Sentinel;
      handPlies := {};
    }

    /** Sets colour c's watermark. */
    method SetWatermark(c: Side, w: nat)
      modifies this
      ensures State() == WithWatermark(old(State()), c, w)
      ensures handPlies == old(handPlies)
    {
      if c == Black {
        blackCanBeAgent := w;
      } else {
        whiteCanBeAgent := w;
      }
    }

    /** Appends a move, replays the record and marks a game without legal moves finished. */
    method Append(name: string)
      requires EngineFacts(engine)
      modifies this
      ensures State() == Played(engine, old(State()), name)
      ensures handPlies == old(handPlies)
    {
      record := record + name;
      obf67 := engine.replay(record);
      var (player, opponent) := engine.toBitboards(obf67);
      var bbMoves := engine.moves(player, opponent);
      if bbMoves == {} {
        status := Finished;
      }
    }

    /** `make_move`. */
    method MakeMove(move: string) returns (outcome: Outcome)
      requires Valid()
      modifies this
      ensures Valid()
      ensures (outcome, State()) == AfterMakeMove(engine, old(State()), move)
      ensures handPlies == if outcome == Accepted then old(handPlies) + {old(|record|)} else old(handPlies)
    {
      if status == Finished {
        return Refused(FinishedError);
      }
      assert obf67 == engine.replay(record);
      var (player, opponent) := engine.toBitboards(obf67);
      var bbMoves := engine.moves(player, opponent);
      assert bbMoves != {};
      var squareIndex := CoordinateToIndex(move);
      if squareIndex.None? {
        return Aborted;
      }
      if squareIndex.value !in bbMoves {
        return Refused(IllegalError);
      }
      ghost var before, oldPlies := State(), handPlies;
      var c := SideOf(obf67);
      SetWatermark(c, Min(Watermark(State(), c), |record|));
      Append(move);
      ghost var after := State();
      handPlies := handPlies + {|before.record|};
      assert State() == after;
      HandMoveValid(before, oldPlies, move);
      return Accepted;
    }

    /**
     * After a hand move by the colour to move at `before`, the session is
     * valid again: the invariant holds and each watermark is the first hand
     * move of its colour.
     */
    lemma HandMoveValid(before: GameState, oldPlies: set<nat>, name: string)
      requires Inv(engine, before) && before.status == InProgress && |name| == 2
      requires State() == Played(engine, MarkHandMove(before, SideOf(before.obf67)), name)
      requires forall n :: n in oldPlies ==> n < |before.record| && n % 2 == 0
      requires IsWatermark(Watermark(before, Black), PliesOf(engine, oldPlies, before.record, Black))
      requires IsWatermark(Watermark(before, White), PliesOf(engine, oldPlies, before.record, White))
      requires handPlies == oldPlies + {|before.record|}
      ensures Valid()
    {
      var c := SideOf(before.obf67);
      var n := |before.record|;
      assert MarkHandMove(before, c) == WithWatermark(before, c, Watermark(State(), c));
      PlayedInv(engine, before, name, State());
      assert record == before.record + name;
      forall d
        ensures PliesBy(d) == PliesOf(engine, oldPlies, before.record, d) + (if d == c then {n} else {})
      {
        PliesAfterHandMove(engine, oldPlies, before.record, name, d);
      }
      WatermarkAfterHandMove(Watermark(before, c), PliesOf(engine, oldPlies, before.record, c), n);
    }

    /** `make_random_move`; `square` is the square the draw selected. */
    method MakeRandomMove() returns (outcome: Outcome, ghost square: nat)
      requires Valid()
      modifies this
      ensures Valid()
      ensures old(status) == InProgress ==> square in LegalMoves(engine, old(State()))
      ensures (outcome, State()) == AfterRandomMove(engine, old(State()), square)
      ensures handPlies == if outcome == Accepted then old(handPlies) + {old(|record|)} else old(handPlies)
    {
      if status == Finished {
        return Refused(FinishedError), 0;
      }
      ghost var before, oldPlies := State(), handPlies;
      var c := SideOf(obf67);
      SetWatermark(c, Min(Watermark(State(), c), |record|));
      assert obf67 == engine.replay(record);
      var (player, opponent) := engine.toBitboards(obf67);
      var bbMoves := engine.moves(player, opponent);
      assert bbMoves != {};
      PopcountPositive(bbMoves);
      var movenum := Popcount(bbMoves);
      var draw :| 0 <= draw < movenum;
      var squareIndex := NthSquare(bbMoves, draw);
      Append(IndexToCoordinate(squareIndex));
      square := squareIndex;
      ghost var after := State();
      handPlies := handPlies + {|before.record|};
      assert State() == after;
      HandMoveValid(before, oldPlies, IndexToCoordinate(square));
      return Accepted, square;
    }

    /** `undo_move`. */
    method UndoMove() returns (outcome: Outcome)
      requires Valid()
      modifies this
      ensures Valid()
      ensures (outcome, State()) == AfterUndoMove(engine, old(State()))
      ensures handPlies == set n | n in old(handPlies) && n < |record|
    {
      if |record| == 0 {
        return Refused(NoUndoError);
      }
      ghost var before, oldPlies := State(), handPlies;
      DropLastMove();
      ghost var after := State();
      handPlies := set n | n in handPlies && n < |record|;
      assert State() == after;
      UndoValid(before, oldPlies);
      return Accepted;
    }

    /**
     * The body of `undo_move` past its check: cut the record, resume the
     * game, replay, and release the watermark of the colour now to move.
     */
    method DropLastMove()
      requires EngineFacts(engine) && |record| > 0
      modifies this
      ensures State() == AfterUndoMove(engine, old(State())).1
      ensures handPlies == old(handPlies)
    {
      record := record[..if |record| >= 2 then |record| - 2 else 0];
      if status == Finished {
        status := InProgress;
      }
      obf67 := engine.replay(record);
      var c := SideOf(obf67);
      if Watermark(State(), c) == |record| {
        SetWatermark(c, Sentinel);
      }
    }

    /**
     * After an undo, the watermark and ghost plies of the session fit again.
     */
    lemma UndoValid(before: GameState, oldPlies: set<nat>)
      requires Inv(engine, before) && |before.record| > 0
      requires State() == AfterUndoMove(engine, before).1
      requires forall n :: n in oldPlies ==> n < |before.record| && n % 2 == 0
      requires IsWatermark(Watermark(before, Black), PliesOf(engine, oldPlies, before.record, Black))
      requires IsWatermark(Watermark(before, White), PliesOf(engine, oldPlies, before.record, White))
      requires handPlies == set n | n in oldPlies && n < |record|
      ensures Valid()
    {
      UndoMoveSpec(engine, before);
      var m := |record|;
      var c := SideOf(obf67);
      assert record == before.record[..m];
      forall d
        ensures PliesBy(d) == set k | k in PliesOf(engine, oldPlies, before.record, d) && k < m
      {
        PliesAfterCut(engine, oldPlies, before.record, m, d);
      }
      forall d
        ensures IsWatermark(Watermark(State(), d), PliesBy(d))
      {
        var p := PliesOf(engine, oldPlies, before.record, d);
        WatermarkAfterUndo(Watermark(before, d), p, m);
        if d != c {
          assert m !in p;
        }
      }
    }

    /** `reset_game`. */
    method ResetGame()
      requires Valid()
      modifies this
      ensures Valid()
      ensures State() == InitialState(engine) && handPlies == {}
    {
      record := "";
      obf67 := engine.initialObf;
      status := InProgress;
      blackCanBeAgent := Sentinel;
      whiteCanBeAgent := Sentinel;
      handPlies := {};
    }

    /**
     * `do_agent_move`.  It plays only for a colour without hand moves (for a
     * record shorter than the sentinel), and leaves the hand moves alone.
     */
    method DoAgentMove() returns (outcome: Outcome)
      requires Valid()
      modifies this
      ensures Valid()
      ensures (outcome, State()) == AfterAgentMove(engine, old(State()))
      ensures handPlies == old(handPlies)
      ensures outcome == Accepted && old(|record|) <= Sentinel ==> old(PliesBy(SideOf(obf67))) == {}
    {
      if status == Finished {
        return Refused(FinishedError);
      }
      var c := SideOf(obf67);
      if Watermark(State(), c) != Sentinel {
        return Refused(AgentError(c));
      }
      ghost var before := State();
      assert obf67 == engine.replay(record);
      var (player, opponent) := engine.toBitboards(obf67);
      var answer := GetOptimalMove(engine, player, opponent);
      var move := AnswerText(answer);
      if !IsCoordinate(move) {
        return Aborted;
      }
      Append(move);
      AgentMoveSpec(engine, before);
      forall d ensures PliesBy(d) == PliesOf(engine, handPlies, before.record, d) {
        PliesAfterAgentMove(engine, handPlies, before.record, move, d);
      }
      if |before.record| <= Sentinel {
        WatermarkIsSentinelIffNoPlies(Sentinel, PliesOf(engine, handPlies, before.record, c), |before.record|);
      }
      return Accepted;
    }
  }

  /**
   * In a valid session no longer than the sentinel, the agent may play a
   * colour exactly when no move of that colour in the record was played by hand.
   */
  lemma AgentAllowedIffNoHandMoves(s: GameSession, c: Side)
    requires s.Valid() && |s.record| <= Sentinel
    ensures Watermark(s.State(), c) == Sentinel <==> s.PliesBy(c) == {}
  {
    WatermarkIsSentinelIffNoPlies(Watermark(s.State(), c), s.PliesBy(c), |s.record|);
  }
}
