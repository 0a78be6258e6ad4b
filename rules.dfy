/** The rules of Kalah-style Mancala as pure functions over the 15-slot board:
    slots 0-5 are player 1's pits, slot 6 player 1's store, slots 7-12 player 2's
    pits, slot 13 player 2's store, and slot 14 repeats whose turn it is.

    `GameState` is the value of a whole `Board` object; `Move` is what one call of
    `process_move` does to it. */
module Rules {
  import opened Sums

  const Player1Store := 6
  const Player2Store := 13
  const TurnSlot := 14
  /** Number of pits on each side. */
  const PitsPerSide := 6
  /** Number of slots on the board, the turn slot included. */
  const BoardSize := 15
  /** Number of slots that hold marbles (pits and stores); sowing walks them modulo this. */
  const Ring := 14
  /** A store holding more than this has a strict majority of the 48 marbles. */
  const MajorityThreshold := 24
  const TotalMarbles := 48

  datatype Option<T> = None | Some(value: T)

  /** The pairing of each pit with the pit across the board. */
  const Pairs: map<int, int> := map[0 := 12, 1 := 11, 2 := 10, 3 := 9, 4 := 8, 5 := 7,
                                    7 := 5, 8 := 4, 9 := 3, 10 := 2, 11 := 1, 12 := 0]

  /** The pit across the board from `pit`: 0 faces 12, 5 faces 7. */
  function Opposite(pit: int): int
  {
    2 * Player1Store - pit
  }

  /** A pit, as opposed to a store or the turn slot. */
  predicate IsPit(i: int)
  {
    0 <= i < Player1Store || Player1Store < i < Player2Store
  }

  /** The pits belonging to the player to move. */
  predicate MoverPit(i: int, isPlayer1sTurn: bool)
  {
    if isPlayer1sTurn then 0 <= i < Player1Store else Player1Store < i < Player2Store
  }

  function OwnStore(isPlayer1sTurn: bool): int
  {
    if isPlayer1sTurn then Player1Store else Player2Store
  }

  function EnemyStore(isPlayer1sTurn: bool): int
  {
    if isPlayer1sTurn then Player2Store else Player1Store
  }

  /** Whose turn it is, as the number stored in `player` and in slot 14. */
  function PlayerNumber(isPlayer1sTurn: bool): int
  {
    if isPlayer1sTurn then 1 else 2
  }

  /** The marbles in slots 0-13: pits and stores, not the turn slot. */
  function Total(b: seq<int>): int
    requires |b| == BoardSize
  {
    SumOf(b[..Ring])
  }

  function InitialBoard(): (b: seq<int>)
    ensures |b| == BoardSize
    ensures forall i :: 0 <= i < BoardSize ==>
              b[i] == (if IsPit(i) then 4 else if i == TurnSlot then 1 else 0)
  {
    [4, 4, 4, 4, 4, 4, 0, 4, 4, 4, 4, 4, 4, 0, 1]
  }

  /** Every field of a `Board` object: the slots, `is_player_1s_turn`, `player`
      and `game_over`. */
  datatype GameState = GameState(board: seq<int>, isPlayer1sTurn: bool, player: int, gameOver: bool)

  /** What every reachable state satisfies: 15 slots, no negative count, and the
      three records of whose turn it is agree. */
  predicate WellFormed(s: GameState)
  {
    && |s.board| == BoardSize
    && (forall i :: 0 <= i < Ring ==> s.board[i] >= 0)
    && s.player == PlayerNumber(s.isPlayer1sTurn)
    && s.board[TurnSlot] == s.player
  }

  function InitialState(): (s: GameState)
    ensures s.board == InitialBoard()
    ensures WellFormed(s) && s.isPlayer1sTurn && s.player == 1 && !s.gameOver
  {
    GameState(InitialBoard(), true, 1, false)
  }

  /** The legal moves from slot `i` on: the non-empty slots, stores removed,
      kept to the mover's side, in index order. */
  function MovesFrom(b: seq<int>, isPlayer1sTurn: bool, i: nat): (r: seq<int>)
    requires |b| == BoardSize && i <= BoardSize
    ensures forall m :: m in r <==> i <= m && MoverPit(m, isPlayer1sTurn) && b[m] != 0
    ensures forall j, k :: 0 <= j < k < |r| ==> r[j] < r[k]
    ensures forall k :: 0 <= k < |r| ==> i <= r[k]
    decreases BoardSize - i
  {
    if i == BoardSize then []
    else
      var onSide := if isPlayer1sTurn then i < Player1Store else Player1Store < i < Ring;
      if b[i] != 0 && i != Player1Store && i != Player2Store && onSide
      then [i] + MovesFrom(b, isPlayer1sTurn, i + 1)
      else MovesFrom(b, isPlayer1sTurn, i + 1)
  }

  /** `get_legal_moves`: exactly the non-empty pits of the mover, ascending. */
  function LegalMoves(b: seq<int>, isPlayer1sTurn: bool): (r: seq<int>)
    requires |b| == BoardSize
    ensures forall m :: m in r <==> MoverPit(m, isPlayer1sTurn) && b[m] != 0
    ensures forall j, k :: 0 <= j < k < |r| ==> r[j] < r[k]
  {
    MovesFrom(b, isPlayer1sTurn, 0)
  }

  predicate EnemyHome(pit: int, isPlayer1sTurn: bool)
  {
    pit == EnemyStore(isPlayer1sTurn)
  }

  predicate OwnHome(pit: int, isPlayer1sTurn: bool)
  {
    pit == OwnStore(isPlayer1sTurn)
  }

  predicate OwnSidePit(pit: int, isPlayer1sTurn: bool)
  {
    if isPlayer1sTurn then pit < Player1Store else Player1Store < pit < Player2Store
  }

  /** The next slot to sow into: one further round the 14 slots, jumping over
      the opponent's store. */
  function PitToAdd(pitToIncrement: int, isPlayer1sTurn: bool): (r: int)
    ensures 0 <= r < Ring && !EnemyHome(r, isPlayer1sTurn)
    ensures var next := (pitToIncrement + 1) % Ring;
            if EnemyHome(next, isPlayer1sTurn) then r == (pitToIncrement + 2) % Ring else r == next
  {
    var pit := (pitToIncrement + 1) % Ring;
    if EnemyHome(pit, isPlayer1sTurn) then (pit + 1) % Ring else pit
  }

  /** `get_opposite_pit`: the `pairs` lookup, absent for stores and the turn slot. */
  function OppositePit(pit: int): (r: Option<int>)
    ensures r.Some? <==> IsPit(pit)
    ensures r.Some? ==> r.value == Opposite(pit) && IsPit(r.value)
  {
    if pit in Pairs then Some(Pairs[pit]) else None
  }

  /** How many entries of `s` are zero. */
  function CountZeros(s: seq<int>): (n: nat)
    ensures n <= |s|
    ensures n == |s| <==> forall i :: 0 <= i < |s| ==> s[i] == 0
  {
    if s == [] then 0 else (if s[0] == 0 then 1 else 0) + CountZeros(s[1..])
  }

  /** `marbles_gone_on_one_side`: all six pits of one side are empty. */
  predicate MarblesGoneOnOneSide(b: seq<int>): (r: bool)
    requires |b| == BoardSize
    ensures r <==> (forall i :: 0 <= i < Player1Store ==> b[i] == 0)
                   || (forall i :: Player1Store < i < Player2Store ==> b[i] == 0)
  {
    assert forall i :: 0 <= i < Player1Store ==> b[..Player1Store][i] == b[i];
    assert forall i :: Player1Store < i < Player2Store ==> b[Player1Store + 1..Player2Store][i - Player1Store - 1] == b[i];
    CountZeros(b[..Player1Store]) == PitsPerSide || CountZeros(b[Player1Store + 1..Player2Store]) == PitsPerSide
  }

  /** `get_winner`: 1 when player 1's store is larger, -1 when player 2's is, 0 on a tie. */
  function Winner(b: seq<int>): (r: int)
    requires |b| == BoardSize
    ensures -1 <= r <= 1
    ensures r == 1 <==> b[Player1Store] > b[Player2Store]
    ensures r == -1 <==> b[Player1Store] < b[Player2Store]
  {
    var one := b[Player1Store];
    var two := b[Player2Store];
    (if one > two then 1 else 0) - (if one < two then 1 else 0)
  }

  predicate IsTie(b: seq<int>)
    requires |b| == BoardSize
  {
    b[Player1Store] == b[Player2Store]
  }

  /** Sowing `marbles` marbles one per slot after `pit`; returns the board and
      the last slot sown into. */
  function Sow(b: seq<int>, pit: int, marbles: nat, isPlayer1sTurn: bool): (r: (seq<int>, int))
    requires |b| == BoardSize && 0 <= pit < Ring
    ensures |r.0| == BoardSize && 0 <= r.1 < Ring
    ensures marbles > 0 ==> !EnemyHome(r.1, isPlayer1sTurn)
    decreases marbles
  {
    if marbles == 0 then (b, pit)
    else
      var next := PitToAdd(pit, isPlayer1sTurn);
      Sow(b[next := b[next] + 1], next, marbles - 1, isPlayer1sTurn)
  }

  /** `steal_marbles`: unless the opposite pit is empty, empty `pit` and the
      opposite pit and bank one marble plus the opposite pit's in the mover's store. */
  function Steal(b: seq<int>, pit: int, isPlayer1sTurn: bool): (r: seq<int>)
    requires |b| == BoardSize && IsPit(pit)
    ensures |r| == BoardSize
    ensures var opp := Opposite(pit); var home := OwnStore(isPlayer1sTurn);
            if b[opp] == 0 then r == b
            else r[pit] == 0 && r[opp] == 0 && r[home] == b[home] + 1 + b[opp]
                 && forall i :: 0 <= i < BoardSize && i != pit && i != opp && i != home ==> r[i] == b[i]
  {
    var opponentPit := OppositePit(pit).value;
    if b[opponentPit] == 0 then b
    else
      var amountToAdd := 1 + b[opponentPit];
      var home := OwnStore(isPlayer1sTurn);
      b[pit := 0][opponentPit := 0][home := b[home] + amountToAdd]
  }

  /** `clean_up_winning_marbles`: each side's pits emptied into that side's store. */
  function Sweep(b: seq<int>): (r: seq<int>)
    requires |b| == BoardSize
  {
    var side1 := SumOf(b[..Player1Store]);
    var side2 := SumOf(b[Player1Store + 1..Player2Store]);
    seq(BoardSize, i requires 0 <= i < BoardSize =>
      if IsPit(i) then 0
      else if i == Player1Store then b[Player1Store] + side1
      else if i == Player2Store then b[Player2Store] + side2
      else b[i])
  }

  /** `switch_player`: hand the turn over and record it in `player` and slot 14. */
  function Switch(s: GameState): (r: GameState)
    requires |s.board| == BoardSize
    ensures r.isPlayer1sTurn == !s.isPlayer1sTurn && r.gameOver == s.gameOver
    ensures |r.board| == BoardSize && r.board[..Ring] == s.board[..Ring]
    ensures r.player == PlayerNumber(r.isPlayer1sTurn) && r.board[TurnSlot] == r.player
  {
    var p := PlayerNumber(!s.isPlayer1sTurn);
    GameState(s.board[TurnSlot := p], !s.isPlayer1sTurn, p, s.gameOver)
  }

  /** Emptying the chosen pit and sowing its marbles. */
  function SowMove(s: GameState, move: int): (r: (seq<int>, int))
    requires WellFormed(s) && move in LegalMoves(s.board, s.isPlayer1sTurn)
  {
    Sow(s.board[move := 0], move, s.board[move], s.isPlayer1sTurn)
  }

  /** The capture rule, applied to the sown board and the last slot sown. */
  function Capture(b: seq<int>, last: int, isPlayer1sTurn: bool): (r: seq<int>)
    requires |b| == BoardSize && 0 <= last < Ring
    ensures |r| == BoardSize && r[TurnSlot] == b[TurnSlot]
    ensures r[EnemyStore(isPlayer1sTurn)] == b[EnemyStore(isPlayer1sTurn)]
  {
    if b[last] == 1 && OwnSidePit(last, isPlayer1sTurn) then Steal(b, last, isPlayer1sTurn) else b
  }

  /** The end-of-game test of `process_move`. */
  predicate GameEnds(b: seq<int>)
    requires |b| == BoardSize
  {
    b[Player1Store] > MajorityThreshold || b[Player2Store] > MajorityThreshold || MarblesGoneOnOneSide(b)
  }

  /** The end of `process_move` once the capture rule has been applied: the
      end-of-game test and sweep, then the turn hand-over unless the last marble
      reached the mover's store or the game ended. */
  function Finish(s: GameState, last: int, captured: seq<int>): GameState
    requires |captured| == BoardSize
  {
    var ends := GameEnds(captured);
    var after := GameState(if ends then Sweep(captured) else captured,
                           s.isPlayer1sTurn, s.player, s.gameOver || ends);
    if !OwnHome(last, s.isPlayer1sTurn) && !ends then Switch(after) else after
  }

  /** `process_move`: an illegal move changes nothing; a legal one sows,
      captures, and finishes the turn. */
  function Move(s: GameState, move: int): GameState
    requires WellFormed(s)
  {
    if move !in LegalMoves(s.board, s.isPlayer1sTurn) then s
    else
      var sown := SowMove(s, move);
      Finish(s, sown.1, Capture(sown.0, sown.1, s.isPlayer1sTurn))
  }
}
