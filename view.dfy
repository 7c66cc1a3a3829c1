/**
 * The page's readers of the game state (`script.js`): the side to move, the
 * number of empty squares and each colour's agent status, computed from the
 * board text `obf67` and the watermarks the backend sends.  The square names
 * the page posts are `Notation.IndexToCoordinate`.
 */
module View {
  import opened Board
  import opened GameRules

  /** The label for black, 黒. */
  const BlackLabel: string := "\U{9ED2}"
  /** The label for white, 白. */
  const WhiteLabel: string := "\U{767D}"
  /** The agent status "possible", 可能. */
  const PossibleLabel: string := "\U{53EF}\U{80FD}"
  /** The agent status "not possible", 不可能. */
  const ImpossibleLabel: string := "\U{4E0D}\U{53EF}\U{80FD}"

  /**
   * `updateCurrentTurn`: black when character 65 is 'X', white otherwise
   * (also when the text is too short to have one).  On a well-formed board
   * text it is the side to move the backend reads.
   */
  function CurrentTurn(obf: string): (c: Side)
    ensures WellFormedObf(obf) ==> c == SideOf(obf)
    ensures c == Black <==> |obf| > 65 && obf[65] == 'X'
  {
    if |obf| > 65 && obf[65] == 'X' then Black else White
  }

  /** The label `updateCurrentTurn` shows. */
  function TurnLabel(obf: string): (text: string)
    ensures text == BlackLabel <==> CurrentTurn(obf) == Black
    ensures text == WhiteLabel <==> CurrentTurn(obf) == White
  {
    if CurrentTurn(obf) == Black then BlackLabel else WhiteLabel
  }

  /** `updateTurnAndEmptyCells`: the number of '-' characters in the text. */
  function EmptyCells(obf: string): nat
  {
    if |obf| == 0 then 0
    else EmptyCells(obf[..|obf| - 1]) + (if obf[|obf| - 1] == '-' then 1 else 0)
  }

  /** The positions of the '-' characters among the first n. */
  function DashesBelow(obf: string, n: nat): set<nat>
    requires n <= |obf|
  {
    set i: nat | i < n && obf[i] == '-'
  }

  /** The count is the number of positions holding a '-'. */
  lemma {:induction false} EmptyCellsCountsDashes(obf: string)
    ensures EmptyCells(obf) == |DashesBelow(obf, |obf|)|
  {
    if |obf| > 0 {
      var n := |obf| - 1;
      var prefix := obf[..n];
      EmptyCellsCountsDashes(prefix);
      assert DashesBelow(prefix, n) == DashesBelow(obf, n);
      if obf[n] == '-' {
        assert DashesBelow(obf, |obf|) == DashesBelow(obf, n) + {n};
      } else {
        assert DashesBelow(obf, |obf|) == DashesBelow(obf, n);
      }
    }
  }

  /** A set of naturals below n has at most n members. */
  lemma {:induction false} BoundedSetSize(s: set<nat>, n: nat)
    requires forall i :: i in s ==> i < n
    ensures |s| <= n
  {
    if n > 0 {
      BoundedSetSize(s - {n - 1}, n - 1);
    } else {
      assert s == {};
    }
  }

  /**
   * On a well-formed board text, the count is the number of empty board
   * squares: the three trailing characters are never '-', so there are at
   * most 64.
   */
  lemma EmptyCellsAreEmptySquares(obf: string)
    requires WellFormedObf(obf)
    ensures EmptyCells(obf) == |set i: nat | i < 64 && obf[i] == '-'|
    ensures EmptyCells(obf) <= 64
  {
    EmptyCellsCountsDashes(obf);
    assert DashesBelow(obf, |obf|) == set i: nat | i < 64 && obf[i] == '-';
    BoundedSetSize(DashesBelow(obf, |obf|), 64);
  }

  /** `updateAgentStatus` for one colour: possible exactly at the sentinel. */
  function AgentLabel(w: nat): (text: string)
    ensures text == PossibleLabel <==> w == Sentinel
    ensures text == ImpossibleLabel <==> w != Sentinel
  {
    if w == Sentinel then PossibleLabel else ImpossibleLabel
  }

  /** `updateAgentStatus`: the line "黒: <black status>, 白: <white status>". */
  function AgentStatusLine(g: GameState): string
  {
    BlackLabel + ": " + AgentLabel(g.blackCanBeAgent) + ", " + WhiteLabel + ": " + AgentLabel(g.whiteCanBeAgent)
  }

  /**
   * The status line tells two states apart exactly when one of the colours
   * has the sentinel watermark in one state and not in the other: it shows
   * both agent gates and nothing else.
   */
  lemma AgentStatusLineShowsGates(g: GameState, h: GameState)
    ensures AgentStatusLine(g) == AgentStatusLine(h) <==>
      && (g.blackCanBeAgent == Sentinel <==> h.blackCanBeAgent == Sentinel)
      && (g.whiteCanBeAgent == Sentinel <==> h.whiteCanBeAgent == Sentinel)
  {
    var gb, hb := AgentLabel(g.blackCanBeAgent), AgentLabel(h.blackCanBeAgent);
    var gw, hw := AgentLabel(g.whiteCanBeAgent), AgentLabel(h.whiteCanBeAgent);
    var prefix := BlackLabel + ": ";
    if gb != hb {
      assert AgentStatusLine(g)[|prefix|] == gb[0];
      assert AgentStatusLine(h)[|prefix|] == hb[0];
    } else if gw != hw {
      assert |AgentStatusLine(g)| != |AgentStatusLine(h)|;
    }
  }

  /**
   * Two states of games in progress, with the same side to move and the
   * same status line, get the same answer from the `do_agent_move` gate.
   */
  lemma AgentStatusLineDecidesGate(e: Engine, g: GameState, h: GameState)
    requires EngineFacts(e) && g.obf67 == e.replay(g.record) && g.status == InProgress
    requires h.obf67 == e.replay(h.record) && h.status == InProgress
    requires CurrentTurn(g.obf67) == CurrentTurn(h.obf67)
    requires AgentStatusLine(g) == AgentStatusLine(h)
    ensures var c := CurrentTurn(g.obf67);
      AfterAgentMove(e, g).0 == Refused(AgentError(c)) <==> AfterAgentMove(e, h).0 == Refused(AgentError(c))
  {
    AgentStatusLineShowsGates(g, h);
    AgentLabelShowsGate(e, g);
    AgentLabelShowsGate(e, h);
  }

  /**
   * The page shows "possible" for the side to move of a game in progress
   * exactly when the backend's `do_agent_move` does not refuse that side.
   */
  lemma AgentLabelShowsGate(e: Engine, g: GameState)
    requires EngineFacts(e) && g.obf67 == e.replay(g.record) && g.status == InProgress
    ensures var c := CurrentTurn(g.obf67);
      AgentLabel(Watermark(g, c)) == PossibleLabel <==>
        AfterAgentMove(e, g).0 != Refused(AgentError(c))
  {
    var c := SideOf(g.obf67);
    assert AgentError(c) != FinishedError by {
      assert AgentError(c)[0] != FinishedError[0];
    }
  }
}
