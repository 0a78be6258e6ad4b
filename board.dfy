/** The `Board` object: the 15-slot array and the turn and game-over flags,
    updated in place by `ProcessMove` and its helpers. Each method is proved to
    leave exactly the state the matching function of `Rules` describes. */
module Engine {
  import opened Sums
  import opened Rules
  import opened RulesFacts

  class Board {
    var isPlayer1sTurn: bool
    var player: int
    var currentBoard: array<int>
    var gameOver: bool

    /** The value of this object. */
    ghost function Snapshot(): GameState
      reads this, currentBoard
    {
      GameState(currentBoard[..], isPlayer1sTurn, player, gameOver)
    }

    ghost predicate Valid()
      reads this, currentBoard
    {
      WellFormed(Snapshot())
    }

    constructor ()
      ensures Valid() && fresh(currentBoard)
      ensures Snapshot() == InitialState()
    {
      isPlayer1sTurn := true;
      player := 1;
      currentBoard := new int[BoardSize](i requires 0 <= i < BoardSize => InitialBoard()[i]);
      gameOver := false;
      new;
      assert currentBoard[..] == InitialBoard();
    }

    /** `get_whose_turn`, which agrees with `player` and slot 14. */
    function WhoseTurn(): (r: int)
      reads this, currentBoard
      requires Valid()
      ensures r == player && r == currentBoard[TurnSlot]
      ensures r == 1 <==> isPlayer1sTurn
    {
      if isPlayer1sTurn then 1 else 2
    }

    /** `is_game_over`: set by the move that ends the game, and from then on
        every pit is empty (see `RulesFacts.Reachable`). */
    function IsGameOver(): bool
      reads this
    {
      gameOver
    }

    method SwitchPlayer()
      requires Valid()
      modifies this, currentBoard
      ensures Valid() && currentBoard == old(currentBoard)
      ensures Snapshot() == Switch(old(Snapshot()))
    {
      isPlayer1sTurn := !isPlayer1sTurn;
      player := if isPlayer1sTurn then 1 else 2;
      currentBoard[TurnSlot] := player;
    }

    method StealMarbles(pitToAdd: int)
      requires Valid() && IsPit(pitToAdd)
      modifies currentBoard
      ensures Valid()
      ensures currentBoard[..] == Steal(old(currentBoard[..]), pitToAdd, isPlayer1sTurn)
    {
      var opponentPit := OppositePit(pitToAdd).value;
      var opponentAmount := currentBoard[opponentPit];
      if opponentAmount == 0 {
        return;
      }
      var amountToAdd := 1;
      currentBoard[pitToAdd] := 0;
      amountToAdd := amountToAdd + currentBoard[opponentPit];
      currentBoard[opponentPit] := 0;
      var ownHome := if isPlayer1sTurn then Player1Store else Player2Store;
      currentBoard[ownHome] := currentBoard[ownHome] + amountToAdd;
    }

    /** `clean_up_winning_marbles`: empty each side's pits into that side's store. */
    method CleanUpWinningMarbles()
      requires Valid()
      modifies currentBoard
      ensures Valid()
      ensures currentBoard[..] == Sweep(old(currentBoard[..]))
    {
      ghost var b := currentBoard[..];
      assert currentBoard[0..Player1Store] == b[..Player1Store];
      EmptySideIntoStore(0, Player1Store);
      assert currentBoard[Player1Store + 1..Player2Store] == b[Player1Store + 1..Player2Store];
      EmptySideIntoStore(Player1Store + 1, Player2Store);
      SweptStoresNonNegative(b);
      assert forall i :: 0 <= i < BoardSize ==> currentBoard[i] == Sweep(b)[i];
    }

    /** One loop of `clean_up_winning_marbles`: move the marbles of the six pits
        `lo` to `store - 1` into `store`, one pit at a time. */
    method EmptySideIntoStore(lo: int, store: int)
      requires currentBoard.Length == BoardSize && 0 <= lo && store == lo + PitsPerSide < Ring
      modifies currentBoard
      ensures forall i :: lo <= i < store ==> currentBoard[i] == 0
      ensures currentBoard[store] == old(currentBoard[store]) + SumOf(old(currentBoard[lo..store]))
      ensures forall i :: 0 <= i < BoardSize && !(lo <= i <= store) ==> currentBoard[i] == old(currentBoard[i])
    {
      ghost var b := currentBoard[..];
      for x := lo to store
        invariant forall i :: lo <= i < x ==> currentBoard[i] == 0
        invariant currentBoard[store] == b[store] + SumOf(b[lo..x])
        invariant forall i :: 0 <= i < BoardSize && !(lo <= i < x) && i != store ==> currentBoard[i] == b[i]
      {
        SumOfSliceExtend(b, lo, x);
        var toAdd := currentBoard[x];
        currentBoard[x] := 0;
        currentBoard[store] := currentBoard[store] + toAdd;
      }
      assert b[lo..store] == old(currentBoard[lo..store]);
    }

    /** The sowing part of `process_move`: take every marble out of `move` and
        drop them one per slot, skipping the opponent's store; returns the last
        slot sown into. */
    method SowMarbles(move: int) returns (pitToAdd: int)
      requires Valid() && MoverPit(move, isPlayer1sTurn)
      modifies currentBoard
      ensures Valid()
      ensures var sown := Sow(old(currentBoard[..])[move := 0], move, old(currentBoard[move]), isPlayer1sTurn);
              currentBoard[..] == sown.0 && pitToAdd == sown.1
    {
      var marbles := currentBoard[move];
      currentBoard[move] := 0;
      ghost var emptied := currentBoard[..];
      ghost var sown := Sow(emptied, move, marbles, isPlayer1sTurn);
      pitToAdd := move;
      for i := 0 to marbles
        invariant 0 <= pitToAdd < Ring
        invariant Sow(currentBoard[..], pitToAdd, marbles - i, isPlayer1sTurn) == sown
      {
        ghost var before := currentBoard[..];
        ghost var from := pitToAdd;
        pitToAdd := PitToAdd(pitToAdd, isPlayer1sTurn);
        currentBoard[pitToAdd] := currentBoard[pitToAdd] + 1;
        assert currentBoard[..] == before[pitToAdd := before[pitToAdd] + 1];
        SowStep(before, from, marbles - i - 1, isPlayer1sTurn);
      }
      SowOnlyAdds(emptied, move, marbles, isPlayer1sTurn);
      assert forall i :: 0 <= i < Ring ==> emptied[i] <= currentBoard[i];
    }

    /** `process_move`: ignore a move that is not legal; otherwise empty the pit,
        sow, capture, end the game if it is decided, and pass the turn unless the
        mover earned a free turn or the game ended. */
    method ProcessMove(move: int)
      requires Valid()
      modifies this, currentBoard
      ensures Valid() && currentBoard == old(currentBoard)
      ensures Snapshot() == Move(old(Snapshot()), move)
    {
      var switchPlayer := true;
      if move !in LegalMoves(currentBoard[..], isPlayer1sTurn) {
        return;
      }
      ghost var s := Snapshot();
      ghost var sown := SowMove(s, move);
      var pitToAdd := SowMarbles(move);
      assert currentBoard[..] == sown.0 && pitToAdd == sown.1;
      if currentBoard[pitToAdd] == 1 && OwnSidePit(pitToAdd, isPlayer1sTurn) {
        StealMarbles(pitToAdd);
      }
      ghost var captured := currentBoard[..];
      assert captured == Capture(sown.0, sown.1, s.isPlayer1sTurn);
      if OwnHome(pitToAdd, isPlayer1sTurn) {
        switchPlayer := false;
      }
      ghost var ends := GameEnds(captured);
      if currentBoard[Player1Store] > MajorityThreshold
         || currentBoard[Player2Store] > MajorityThreshold
         || MarblesGoneOnOneSide(currentBoard[..]) {
        assert ends;
        CleanUpWinningMarbles();
        assert currentBoard[..] == Sweep(captured);
        gameOver := true;
        switchPlayer := false;
      } else {
        assert !ends;
      }
      assert switchPlayer == (!OwnHome(sown.1, s.isPlayer1sTurn) && !ends);
      if switchPlayer {
        SwitchPlayer();
      }
      assert Snapshot() == Finish(s, sown.1, captured);
      MovePreservesWellFormed(s, move);
    }
  }

  /** The swept stores hold no negative count. */
  lemma SweptStoresNonNegative(b: seq<int>)
    requires |b| == BoardSize && forall i :: 0 <= i < Ring ==> b[i] >= 0
    ensures SumOf(b[..Player1Store]) >= 0 && SumOf(b[Player1Store + 1..Player2Store]) >= 0
  {
    SumOfNonNegative(b[..Player1Store]);
    SumOfNonNegative(b[Player1Store + 1..Player2Store]);
  }
}
