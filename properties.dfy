/** What the rules guarantee: no marble is created or lost, the opponent's store
    is never sown into, the capture, free-turn and end-of-game rules, the turn
    bookkeeping, and the scoring. */
module RulesFacts {
  import opened Sums
  import opened Rules

  /** Changing one slot of the board changes the marble total by the
      difference, unless it is the turn slot. */
  lemma TotalUpdate(b: seq<int>, i: int, v: int)
    requires |b| == BoardSize && 0 <= i < BoardSize
    ensures Total(b[i := v]) == if i < Ring then Total(b) - b[i] + v else Total(b)
  {
    if i < Ring {
      assert b[i := v][..Ring] == b[..Ring][i := v];
      SumOfUpdate(b[..Ring], i, v);
    } else {
      assert b[i := v][..Ring] == b[..Ring];
    }
  }

  /** The starting position holds 48 marbles. */
  lemma InitialTotal()
    ensures Total(InitialBoard()) == TotalMarbles
  {
    var b := InitialBoard();
    TotalBySide(b);
    SumOfConstant(b[..Player1Store], 4);
    SumOfConstant(b[Player1Store + 1..Player2Store], 4);
  }

  /** The integers from `lo` up to, not including, `hi`. */
  function Range(lo: int, hi: int): seq<int>
    decreases hi - lo
  {
    if lo >= hi then [] else [lo] + Range(lo + 1, hi)
  }

  /** The first pit of the mover's side. */
  function FirstPit(isPlayer1sTurn: bool): int
  {
    if isPlayer1sTurn then 0 else Player1Store + 1
  }

  lemma {:induction false} FullSideMovesFrom(b: seq<int>, isPlayer1sTurn: bool, i: nat)
    requires |b| == BoardSize && i <= BoardSize
    requires forall m :: MoverPit(m, isPlayer1sTurn) ==> b[m] != 0
    ensures var first := FirstPit(isPlayer1sTurn);
            MovesFrom(b, isPlayer1sTurn, i) == Range(if i < first then first else i, first + PitsPerSide)
    decreases BoardSize - i
  {
    if i < BoardSize {
      var first := FirstPit(isPlayer1sTurn);
      var last := first + PitsPerSide;
      FullSideMovesFrom(b, isPlayer1sTurn, i + 1);
      if first <= i < last {
        assert MoverPit(i, isPlayer1sTurn) && b[i] != 0;
        assert MovesFrom(b, isPlayer1sTurn, i) == [i] + MovesFrom(b, isPlayer1sTurn, i + 1);
        assert Range(i, last) == [i] + Range(i + 1, last);
      } else {
        assert !MoverPit(i, isPlayer1sTurn);
        assert MovesFrom(b, isPlayer1sTurn, i) == MovesFrom(b, isPlayer1sTurn, i + 1);
      }
    }
  }

  /** Six consecutive integers. */
  lemma RangeOfSix(first: int)
    ensures Range(first, first + PitsPerSide) == [first, first + 1, first + 2, first + 3, first + 4, first + 5]
  {
    assert Range(first + 5, first + PitsPerSide) == [first + 5];
    assert Range(first + 4, first + PitsPerSide) == [first + 4, first + 5];
    assert Range(first + 3, first + PitsPerSide) == [first + 3, first + 4, first + 5];
    assert Range(first + 2, first + PitsPerSide) == [first + 2, first + 3, first + 4, first + 5];
    assert Range(first + 1, first + PitsPerSide) == [first + 1, first + 2, first + 3, first + 4, first + 5];
  }

  /** When every pit of the mover holds marbles, the legal moves are all six
      of them, in order. */
  lemma FullSideMoves(b: seq<int>, isPlayer1sTurn: bool)
    requires |b| == BoardSize
    requires forall i :: MoverPit(i, isPlayer1sTurn) ==> b[i] != 0
    ensures var first := FirstPit(isPlayer1sTurn);
            LegalMoves(b, isPlayer1sTurn) == [first, first + 1, first + 2, first + 3, first + 4, first + 5]
  {
    FullSideMovesFrom(b, isPlayer1sTurn, 0);
    RangeOfSix(FirstPit(isPlayer1sTurn));
  }

  /** Player 1's first choices are the pits 0-5, in order. */
  lemma InitialLegalMoves()
    ensures LegalMoves(InitialBoard(), true) == [0, 1, 2, 3, 4, 5]
  {
    FullSideMoves(InitialBoard(), true);
  }

  /** Sowing adds exactly the sown marbles to the board. */
  lemma {:induction false} SowConserves(b: seq<int>, pit: int, marbles: nat, isPlayer1sTurn: bool)
    requires |b| == BoardSize && 0 <= pit < Ring
    ensures Total(Sow(b, pit, marbles, isPlayer1sTurn).0) == Total(b) + marbles
    decreases marbles
  {
    if marbles > 0 {
      var next := PitToAdd(pit, isPlayer1sTurn);
      TotalUpdate(b, next, b[next] + 1);
      SowConserves(b[next := b[next] + 1], next, marbles - 1, isPlayer1sTurn);
    }
  }

  /** One step of sowing: drop a marble in the next slot, then sow the rest. */
  lemma SowStep(b: seq<int>, pit: int, marbles: nat, isPlayer1sTurn: bool)
    requires |b| == BoardSize && 0 <= pit < Ring
    ensures var next := PitToAdd(pit, isPlayer1sTurn);
            Sow(b, pit, marbles + 1, isPlayer1sTurn) == Sow(b[next := b[next] + 1], next, marbles, isPlayer1sTurn)
  {
  }

  /** Sowing only ever adds: no slot loses a marble, the slot sown last gains
      one, and neither the turn slot nor the opponent's store changes. */
  lemma {:induction false} SowOnlyAdds(b: seq<int>, pit: int, marbles: nat, isPlayer1sTurn: bool)
    requires |b| == BoardSize && 0 <= pit < Ring
    ensures var r := Sow(b, pit, marbles, isPlayer1sTurn);
            && r.0[TurnSlot] == b[TurnSlot]
            && r.0[EnemyStore(isPlayer1sTurn)] == b[EnemyStore(isPlayer1sTurn)]
            && (forall i :: 0 <= i < BoardSize ==> b[i] <= r.0[i])
            && (marbles > 0 ==> b[r.1] < r.0[r.1])
    decreases marbles
  {
    if marbles > 0 {
      var next := PitToAdd(pit, isPlayer1sTurn);
      SowOnlyAdds(b[next := b[next] + 1], next, marbles - 1, isPlayer1sTurn);
    }
  }

  /** A capture from a pit holding the single sown marble moves marbles from
      the two pits to the store and loses none. */
  lemma StealConserves(b: seq<int>, pit: int, isPlayer1sTurn: bool)
    requires |b| == BoardSize && IsPit(pit) && b[pit] == 1
    ensures Total(Steal(b, pit, isPlayer1sTurn)) == Total(b)
  {
    var opp := Opposite(pit);
    var home := OwnStore(isPlayer1sTurn);
    if b[opp] != 0 {
      var b1 := b[pit := 0];
      var b2 := b1[opp := 0];
      TotalUpdate(b, pit, 0);
      TotalUpdate(b1, opp, 0);
      TotalUpdate(b2, home, b2[home] + 1 + b[opp]);
      assert Steal(b, pit, isPlayer1sTurn) == b2[home := b2[home] + 1 + b[opp]];
    }
  }

  /** The board split into player 1's pits, player 1's store, player 2's pits
      and player 2's store. */
  lemma TotalBySide(b: seq<int>)
    requires |b| == BoardSize
    ensures Total(b) == SumOf(b[..Player1Store]) + b[Player1Store] + SumOf(b[Player1Store + 1..Player2Store]) + b[Player2Store]
  {
    var one := b[..Player1Store] + [b[Player1Store]];
    assert b[..Ring] == one + b[Player1Store + 1..Player2Store] + [b[Player2Store]];
    SumOfConcat(one + b[Player1Store + 1..Player2Store], [b[Player2Store]]);
    SumOfConcat(one, b[Player1Store + 1..Player2Store]);
    SumOfConcat(b[..Player1Store], [b[Player1Store]]);
    assert [b[Player1Store]][..0] == [] && [b[Player2Store]][..0] == [];
  }

  /** The sweep leaves every pit empty, banks each side's pits in that side's
      store, and keeps the marble total. */
  lemma SweepFacts(b: seq<int>)
    requires |b| == BoardSize
    ensures var r := Sweep(b);
            && |r| == BoardSize
            && (forall i :: 0 <= i < BoardSize && IsPit(i) ==> r[i] == 0)
            && r[Player1Store] == b[Player1Store] + SumOf(b[..Player1Store])
            && r[Player2Store] == b[Player2Store] + SumOf(b[Player1Store + 1..Player2Store])
            && r[TurnSlot] == b[TurnSlot]
            && Total(r) == Total(b)
            && r[Player1Store] + r[Player2Store] == Total(b)
  {
    var r := Sweep(b);
    TotalBySide(b);
    TotalBySide(r);
    SumOfZeros(r[..Player1Store]);
    SumOfZeros(r[Player1Store + 1..Player2Store]);
  }

  /** The sowing step of a move empties the chosen pit and sows all of it. */
  lemma SowMoveConserves(s: GameState, move: int)
    requires WellFormed(s) && move in LegalMoves(s.board, s.isPlayer1sTurn)
    ensures Total(SowMove(s, move).0) == Total(s.board)
  {
    TotalUpdate(s.board, move, 0);
    SowConserves(s.board[move := 0], move, s.board[move], s.isPlayer1sTurn);
  }

  /** Sowing that does not reach the opponent's store or wrap round drops one
      marble in each of the next `marbles` slots and ends `marbles` slots on. */
  lemma {:induction false} SowWithoutWrap(b: seq<int>, pit: int, marbles: nat, isPlayer1sTurn: bool)
    requires |b| == BoardSize && 0 <= pit && pit + marbles < Ring
    requires forall j :: pit < j <= pit + marbles ==> !EnemyHome(j, isPlayer1sTurn)
    ensures var r := Sow(b, pit, marbles, isPlayer1sTurn);
            && r.1 == pit + marbles
            && forall i :: 0 <= i < BoardSize ==> r.0[i] == b[i] + (if pit < i <= pit + marbles then 1 else 0)
    decreases marbles
  {
    if marbles > 0 {
      var next := PitToAdd(pit, isPlayer1sTurn);
      assert next == pit + 1;
      SowStep(b, pit, marbles - 1, isPlayer1sTurn);
      SowWithoutWrap(b[next := b[next] + 1], next, marbles - 1, isPlayer1sTurn);
    }
  }

  /** The free-turn rule: a pit holding exactly as many marbles as it is
      slots away from the mover's store puts the last marble in that store,
      and the mover plays again. */
  lemma ExactCountKeepsTurn(s: GameState, move: int)
    requires WellFormed(s) && move in LegalMoves(s.board, s.isPlayer1sTurn)
    requires s.board[move] == OwnStore(s.isPlayer1sTurn) - move
    ensures SowMove(s, move).1 == OwnStore(s.isPlayer1sTurn)
    ensures Move(s, move).isPlayer1sTurn == s.isPlayer1sTurn
    ensures Move(s, move).player == s.player
  {
    SowWithoutWrap(s.board[move := 0], move, s.board[move], s.isPlayer1sTurn);
    TurnAfterMove(s, move);
  }

  /** Marble conservation: `process_move` never changes the number of marbles
      in pits and stores, through sowing, capture and sweep alike. */
  lemma MoveConservesMarbles(s: GameState, move: int)
    requires WellFormed(s)
    ensures |Move(s, move).board| == BoardSize
    ensures Total(Move(s, move).board) == Total(s.board)
  {
    if move in LegalMoves(s.board, s.isPlayer1sTurn) {
      var sown := SowMove(s, move);
      SowMoveConserves(s, move);
      CaptureConserves(sown.0, sown.1, s.isPlayer1sTurn);
      FinishConserves(s, sown.1, Capture(sown.0, sown.1, s.isPlayer1sTurn));
    }
  }

  /** The capture rule moves marbles into the store and loses none. */
  lemma CaptureConserves(b: seq<int>, last: int, isPlayer1sTurn: bool)
    requires |b| == BoardSize && 0 <= last < Ring
    ensures Total(Capture(b, last, isPlayer1sTurn)) == Total(b)
  {
    if b[last] == 1 && OwnSidePit(last, isPlayer1sTurn) {
      StealConserves(b, last, isPlayer1sTurn);
    }
  }

  /** The end of a turn, sweep and hand-over included, keeps the marble total. */
  lemma FinishConserves(s: GameState, last: int, captured: seq<int>)
    requires |captured| == BoardSize
    ensures |Finish(s, last, captured).board| == BoardSize
    ensures Total(Finish(s, last, captured).board) == Total(captured)
  {
    var ends := GameEnds(captured);
    var board := if ends then Sweep(captured) else captured;
    if ends {
      SweepFacts(captured);
    }
    TotalUpdate(board, TurnSlot, PlayerNumber(!s.isPlayer1sTurn));
  }

  /** The turn invariant: after any call, `player`, slot 14 and
      `is_player_1s_turn` still agree, and no count has gone negative. */
  lemma MovePreservesWellFormed(s: GameState, move: int)
    requires WellFormed(s)
    ensures WellFormed(Move(s, move))
  {
    if move in LegalMoves(s.board, s.isPlayer1sTurn) {
      var emptied := s.board[move := 0];
      var sown := SowMove(s, move);
      SowOnlyAdds(emptied, move, s.board[move], s.isPlayer1sTurn);
      assert forall i :: 0 <= i < Ring ==> emptied[i] <= sown.0[i];
      CaptureKeepsCounts(sown.0, sown.1, s.isPlayer1sTurn);
      FinishWellFormed(s, sown.1, Capture(sown.0, sown.1, s.isPlayer1sTurn));
    }
  }

  /** The capture step moves marbles between slots 0-13 only and makes no
      count negative. */
  lemma CaptureKeepsCounts(b: seq<int>, last: int, isPlayer1sTurn: bool)
    requires |b| == BoardSize && 0 <= last < Ring
    requires forall i :: 0 <= i < Ring ==> b[i] >= 0
    ensures var r := Capture(b, last, isPlayer1sTurn);
            && r[TurnSlot] == b[TurnSlot]
            && forall i :: 0 <= i < Ring ==> r[i] >= 0
  {
  }

  /** Finishing a turn from a board with no negative count keeps the state
      well formed. */
  lemma FinishWellFormed(s: GameState, last: int, captured: seq<int>)
    requires WellFormed(s) && |captured| == BoardSize
    requires captured[TurnSlot] == s.board[TurnSlot]
    requires forall i :: 0 <= i < Ring ==> captured[i] >= 0
    ensures WellFormed(Finish(s, last, captured))
  {
    if GameEnds(captured) {
      SweepFacts(captured);
      SumOfNonNegative(captured[..Player1Store]);
      SumOfNonNegative(captured[Player1Store + 1..Player2Store]);
      var swept := Sweep(captured);
      assert forall i :: 0 <= i < Ring ==> swept[i] >= 0;
    }
  }

  /** An illegal move leaves the board, the turn flags and `game_over` as they were. */
  lemma IllegalMoveIgnored(s: GameState, move: int)
    requires WellFormed(s)
    requires move !in LegalMoves(s.board, s.isPlayer1sTurn)
    ensures Move(s, move) == s
  {
  }

  /** The opponent's store gets no sown marble and no captured marble: only
      the end-of-game sweep can add to it. */
  lemma EnemyStoreUntouched(s: GameState, move: int)
    requires WellFormed(s) && move in LegalMoves(s.board, s.isPlayer1sTurn)
    requires var sown := SowMove(s, move);
             !GameEnds(Capture(sown.0, sown.1, s.isPlayer1sTurn))
    ensures var enemy := EnemyStore(s.isPlayer1sTurn);
            Move(s, move).board[enemy] == s.board[enemy]
  {
    var sown := SowMove(s, move);
    var enemy := EnemyStore(s.isPlayer1sTurn);
    SowOnlyAdds(s.board[move := 0], move, s.board[move], s.isPlayer1sTurn);
    assert sown.0[enemy] == s.board[enemy];
    FinishKeepsMarbleSlots(s, sown.1, Capture(sown.0, sown.1, s.isPlayer1sTurn));
  }

  /** A turn that does not end the game changes no marble slot at its end:
      only the turn slot is rewritten. */
  lemma FinishKeepsMarbleSlots(s: GameState, last: int, captured: seq<int>)
    requires |captured| == BoardSize && !GameEnds(captured)
    ensures Finish(s, last, captured).board[..Ring] == captured[..Ring]
  {
  }

  /** The capture rule: the last marble landing alone in a pit on the mover's
      side, across from a non-empty pit, empties both pits into the mover's
      store (seen on the final board when the move does not end the game). */
  lemma CaptureTakesOpposite(s: GameState, move: int)
    requires WellFormed(s) && move in LegalMoves(s.board, s.isPlayer1sTurn)
    requires var sown := SowMove(s, move);
             && sown.0[sown.1] == 1 && OwnSidePit(sown.1, s.isPlayer1sTurn)
             && sown.0[Opposite(sown.1)] != 0
             && !GameEnds(Capture(sown.0, sown.1, s.isPlayer1sTurn))
    ensures var sown := SowMove(s, move);
            var last := sown.1;
            var home := OwnStore(s.isPlayer1sTurn);
            var r := Move(s, move).board;
            && r[last] == 0 && r[Opposite(last)] == 0
            && r[home] == sown.0[home] + 1 + sown.0[Opposite(last)]
            && forall i :: 0 <= i < Ring && i != last && i != Opposite(last) && i != home ==> r[i] == sown.0[i]
  {
  }

  /** A lone last marble across from an empty pit stays where it is: the
      board is left as sown. */
  lemma NoCaptureFromEmpty(s: GameState, move: int)
    requires WellFormed(s) && move in LegalMoves(s.board, s.isPlayer1sTurn)
    requires var sown := SowMove(s, move);
             OwnSidePit(sown.1, s.isPlayer1sTurn) && sown.0[Opposite(sown.1)] == 0
    ensures var sown := SowMove(s, move);
            Capture(sown.0, sown.1, s.isPlayer1sTurn) == sown.0
  {
  }

  /** Turn handling: the turn stays with the mover exactly when the last
      marble reached the mover's store or the game ended on this move. */
  lemma TurnAfterMove(s: GameState, move: int)
    requires WellFormed(s) && move in LegalMoves(s.board, s.isPlayer1sTurn)
    ensures var sown := SowMove(s, move);
            var ends := GameEnds(Capture(sown.0, sown.1, s.isPlayer1sTurn));
            var r := Move(s, move);
            && (r.isPlayer1sTurn == s.isPlayer1sTurn <==> OwnHome(sown.1, s.isPlayer1sTurn) || ends)
            && r.gameOver == (s.gameOver || ends)
  {
  }

  /** End of game: when a store passes 24 or a side is empty after the
      capture step, every pit is emptied into its side's store, the stores
      hold all the marbles and `game_over` is set. */
  lemma EndOfGameSweeps(s: GameState, move: int)
    requires WellFormed(s) && move in LegalMoves(s.board, s.isPlayer1sTurn)
    requires var sown := SowMove(s, move);
             GameEnds(Capture(sown.0, sown.1, s.isPlayer1sTurn))
    ensures var sown := SowMove(s, move);
            var r := Move(s, move);
            && r.gameOver
            && (forall i :: 0 <= i < BoardSize && IsPit(i) ==> r.board[i] == 0)
            && r.board[Player1Store] + r.board[Player2Store] == Total(s.board)
            && r.isPlayer1sTurn == s.isPlayer1sTurn
            && r.board == Sweep(Capture(sown.0, sown.1, s.isPlayer1sTurn))
  {
    var sown := SowMove(s, move);
    var captured := Capture(sown.0, sown.1, s.isPlayer1sTurn);
    SweepFacts(captured);
    MoveConservesMarbles(s, move);
  }

  /** With every pit empty there is no legal move, so every move is ignored:
      a finished game stays finished. */
  lemma EmptyPitsFreezeGame(s: GameState, move: int)
    requires WellFormed(s)
    requires forall i :: 0 <= i < BoardSize && IsPit(i) ==> s.board[i] == 0
    ensures LegalMoves(s.board, s.isPlayer1sTurn) == []
    ensures Move(s, move) == s
  {
    NoMovesFrom(s.board, s.isPlayer1sTurn, 0);
  }

  lemma {:induction false} NoMovesFrom(b: seq<int>, isPlayer1sTurn: bool, i: nat)
    requires |b| == BoardSize && i <= BoardSize
    requires forall m :: 0 <= m < BoardSize && IsPit(m) ==> b[m] == 0
    ensures MovesFrom(b, isPlayer1sTurn, i) == []
    decreases BoardSize - i
  {
    if i < BoardSize {
      NoMovesFrom(b, isPlayer1sTurn, i + 1);
    }
  }

  /** `is_tie` holds exactly when `get_winner` returns 0. */
  lemma TieIsDraw(b: seq<int>)
    requires |b| == BoardSize
    ensures IsTie(b) <==> Winner(b) == 0
  {
  }

  /** Sowing the four marbles of pit 2 from the starting position. */
  lemma SowPitTwo(b0: seq<int>)
    requires b0 == InitialBoard()[2 := 0]
    ensures Sow(b0, 2, 4, true) == ([4, 4, 0, 5, 5, 5, 1, 4, 4, 4, 4, 4, 4, 0, 1], 6)
  {
    var b1 := b0[3 := 5];
    var b2 := b1[4 := 5];
    var b3 := b2[5 := 5];
    var b4 := b3[6 := 1];
    assert Sow(b3, 5, 1, true) == (b4, 6);
    assert Sow(b2, 4, 2, true) == (b4, 6);
    assert Sow(b1, 3, 3, true) == (b4, 6);
    assert b4 == [4, 4, 0, 5, 5, 5, 1, 4, 4, 4, 4, 4, 4, 0, 1];
  }

  /** The sowing step of the worked example. */
  lemma FirstMovePitTwoSows(s: GameState)
    requires s == InitialState()
    ensures 2 in LegalMoves(s.board, true)
    ensures SowMove(s, 2) == ([4, 4, 0, 5, 5, 5, 1, 4, 4, 4, 4, 4, 4, 0, 1], 6)
  {
    InitialLegalMoves();
    SowPitTwo(s.board[2 := 0]);
  }

  /** The rest of the worked example: no capture, the game goes on, and the
      last marble in the store keeps the turn. */
  lemma FirstMovePitTwoFinishes(s: GameState)
    requires s == InitialState()
    ensures var b := [4, 4, 0, 5, 5, 5, 1, 4, 4, 4, 4, 4, 4, 0, 1];
            Finish(s, 6, Capture(b, 6, true)) == GameState(b, true, 1, false)
  {
    var b := [4, 4, 0, 5, 5, 5, 1, 4, 4, 4, 4, 4, 4, 0, 1];
    assert Capture(b, 6, true) == b;
    assert b[0] != 0 && b[Player1Store + 1] != 0;
    assert !GameEnds(b);
  }

  /** The worked example: from the start, player 1 moving pit 2 sows into pits
      3, 4, 5 and the store, and so moves again. */
  lemma FirstMovePitTwo(s: GameState)
    requires s == InitialState()
    ensures Move(s, 2) == GameState([4, 4, 0, 5, 5, 5, 1, 4, 4, 4, 4, 4, 4, 0, 1], true, 1, false)
  {
    FirstMovePitTwoSows(s);
    FirstMovePitTwoFinishes(s);
  }

  /** The state after playing `moves` one after another from `s`. */
  function Play(s: GameState, moves: seq<int>): (r: GameState)
    requires WellFormed(s)
    ensures WellFormed(r)
    decreases |moves|
  {
    if moves == [] then s
    else
      MovePreservesWellFormed(s, moves[0]);
      Play(Move(s, moves[0]), moves[1..])
  }

  /** What holds in every position reached in a game. */
  predicate Reachable(s: GameState)
  {
    && WellFormed(s)
    && Total(s.board) == TotalMarbles
    && (s.gameOver ==> forall i :: 0 <= i < BoardSize && IsPit(i) ==> s.board[i] == 0)
  }

  /** One call of `process_move` keeps a reachable position reachable. */
  lemma MoveKeepsReachable(s: GameState, move: int)
    requires Reachable(s)
    ensures Reachable(Move(s, move))
  {
    MovePreservesWellFormed(s, move);
    MoveConservesMarbles(s, move);
    if s.gameOver {
      EmptyPitsFreezeGame(s, move);
    } else if move in LegalMoves(s.board, s.isPlayer1sTurn) {
      var sown := SowMove(s, move);
      if GameEnds(Capture(sown.0, sown.1, s.isPlayer1sTurn)) {
        EndOfGameSweeps(s, move);
      }
    }
  }

  /** Any sequence of moves, legal or not, from the starting position keeps 48
      marbles on the board, keeps the turn records in agreement, and once the
      game is over leaves every pit empty. */
  lemma {:induction false} PlayKeepsReachable(s: GameState, moves: seq<int>)
    requires Reachable(s)
    ensures Reachable(Play(s, moves))
    decreases |moves|
  {
    if moves != [] {
      MoveKeepsReachable(s, moves[0]);
      PlayKeepsReachable(Move(s, moves[0]), moves[1..]);
    }
  }

  lemma GamesFromStartAreReachable(moves: seq<int>)
    ensures Reachable(Play(InitialState(), moves))
  {
    InitialTotal();
    PlayKeepsReachable(InitialState(), moves);
  }
}
