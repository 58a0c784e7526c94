/**
 The turn rules of the Nim server: the state one game keeps, the legality
 check a submitted move goes through, the update an accepted move makes, and
 the list of non-empty piles the computer player picks from. Everything here
 is a value; the table of games that these values live in is GameServer.
 */
module NimRules {

  datatype Option<T> = None | Some(value: T) {
    /** The value, or `default` when there is none (Python's `dict.get(key, default)`). */
    function GetOr(default: T): T {
      match this
      case Some(v) => v
      case None => default
    }
  }

  /** The state of one game: the piles, whose turn it is, the winner once
      there is one, and two fields the server stores without reading them. */
  datatype GameState = GameState(
    piles: seq<int>,
    player: int,
    winner: Option<int>,
    mode: string,
    aiPlayer: Option<int>)

  /** The piles a game starts with when the request names none. */
  const DefaultPiles: seq<int> := [1, 3, 5, 7]

  /** The mode a game gets when the request names none. */
  const DefaultMode: string := "normal"

  /** Python's `sum` of a list of integers; every non-negative pile is at
      most the total of non-negative piles. */
  function Sum(s: seq<int>): (r: int)
    ensures AllNonNeg(s) ==> r >= 0
    ensures AllNonNeg(s) ==> forall i :: 0 <= i < |s| ==> s[i] <= r
  {
    if s == [] then 0 else s[0] + Sum(s[1..])
  }

  predicate AllNonNeg(s: seq<int>) {
    forall i :: 0 <= i < |s| ==> s[i] >= 0
  }

  predicate AllZero(s: seq<int>) {
    forall i :: 0 <= i < |s| ==> s[i] == 0
  }

  /** Replacing one entry changes the total by the difference. */
  lemma {:induction false} SumUpdate(s: seq<int>, i: nat, v: int)
    requires i < |s|
    ensures Sum(s[i := v]) == Sum(s) - s[i] + v
  {
    if i == 0 {
      assert s[i := v][1..] == s[1..];
    } else {
      assert s[i := v][1..] == s[1..][i - 1 := v];
      SumUpdate(s[1..], i - 1, v);
    }
  }

  /** Over non-negative piles, the total is zero exactly when every pile is empty. */
  lemma {:induction false} SumZeroIffAllZero(s: seq<int>)
    requires AllNonNeg(s)
    ensures Sum(s) >= 0
    ensures Sum(s) == 0 <==> AllZero(s)
  {
    if s != [] {
      assert AllNonNeg(s[1..]) by {
        forall i | 0 <= i < |s[1..]| ensures s[1..][i] >= 0 {
          assert s[1..][i] == s[i + 1];
        }
      }
      SumZeroIffAllZero(s[1..]);
      if AllZero(s[1..]) && s[0] == 0 {
        forall i | 0 <= i < |s| ensures s[i] == 0 {
          if i > 0 { assert s[i] == s[1..][i - 1]; }
        }
      }
      if AllZero(s) {
        forall i | 0 <= i < |s[1..]| ensures s[1..][i] == 0 {
          assert s[1..][i] == s[i + 1];
        }
      }
    }
  }

  /** The position a Python subscript `i` denotes in a list of length `n`:
      a negative index counts from the end, and None stands for the
      IndexError Python raises when `i` lies outside `-n .. n - 1`. */
  function PyIndex(n: nat, i: int): (r: Option<nat>)
    ensures r.Some? <==> 0 <= i + n && i < n
    ensures r.Some? ==> r.value < n && (r.value == i || r.value == i + n)
    ensures 0 <= i ==> r == if i < n then Some(i) else None
  {
    if 0 <= i < n then Some(i)
    else if 0 <= i + n && i < 0 then Some(i + n)
    else None
  }

  /** The verdict of the legality check on a submitted move. */
  datatype Check =
    | Accept(index: nat)   // the move goes ahead on this pile
    | Reject               // "Invalid move"
    | Crash                // the subscript raised IndexError

  /** The check `pile is None or pile >= len(piles) or piles[pile] < count`,
      evaluated left to right as Python does. It looks at nothing else: not
      the sign of `count`, nor whether the game already has a winner. */
  function CheckMove(piles: seq<int>, pile: Option<int>, count: int): (c: Check)
    ensures c.Accept? ==>
              pile.Some? && PyIndex(|piles|, pile.value) == Some(c.index)
              && c.index < |piles| && count <= piles[c.index]
    ensures c.Crash? <==> pile.Some? && pile.value + |piles| < 0
    ensures c.Reject? <==>
              pile.None? || pile.value >= |piles|
              || (0 <= pile.value + |piles| && piles[PyIndex(|piles|, pile.value).value] < count)
  {
    if pile.None? || pile.value >= |piles| then Reject
    else match PyIndex(|piles|, pile.value)
      case None => Crash
      case Some(k) => if piles[k] < count then Reject else Accept(k)
  }

  /** For a pile index that is not negative, the check accepts exactly the
      moves that take at most what the pile holds, whatever the sign of `count`. */
  lemma CheckMoveNonNegativeIndex(piles: seq<int>, pile: nat, count: int)
    ensures CheckMove(piles, Some(pile), count) ==
            if pile < |piles| && count <= piles[pile] then Accept(pile) else Reject
  {
  }

  /** The update an accepted move makes: take `count` from pile `k`; if the
      piles then add up to zero the player who moved is the winner and keeps
      the turn, otherwise the turn passes to `1 - player`. */
  function Apply(s: GameState, k: nat, count: int): (r: GameState)
    requires k < |s.piles|
    ensures |r.piles| == |s.piles| && r.mode == s.mode && r.aiPlayer == s.aiPlayer
    ensures r.player == s.player <==> Sum(r.piles) == 0
    ensures r.winner == if Sum(r.piles) == 0 then Some(s.player) else s.winner
  {
    var piles := s.piles[k := s.piles[k] - count];
    if Sum(piles) == 0 then s.(piles := piles, winner := Some(s.player))
    else s.(piles := piles, player := 1 - s.player)
  }

  /** A move changes only the chosen pile, lowers it by exactly `count`, and
      lowers the total by exactly `count`. */
  lemma ApplyPiles(s: GameState, k: nat, count: int)
    requires k < |s.piles|
    ensures var r := Apply(s, k, count);
            && |r.piles| == |s.piles|
            && r.piles[k] == s.piles[k] - count
            && (forall j :: 0 <= j < |s.piles| && j != k ==> r.piles[j] == s.piles[j])
            && Sum(r.piles) == Sum(s.piles) - count
            && r.mode == s.mode && r.aiPlayer == s.aiPlayer
  {
    SumUpdate(s.piles, k, s.piles[k] - count);
  }

  /** The move that takes the whole remaining total makes its mover the winner
      without passing the turn; any other move passes the turn and leaves the
      winner as it was. */
  lemma ApplyTurn(s: GameState, k: nat, count: int)
    requires k < |s.piles|
    ensures var r := Apply(s, k, count);
            && (Sum(s.piles) == count ==> r.winner == Some(s.player) && r.player == s.player)
            && (Sum(s.piles) != count ==> r.winner == s.winner && r.player == 1 - s.player)
  {
    SumUpdate(s.piles, k, s.piles[k] - count);
  }

  /** The turn indicator stays in {0, 1}. */
  lemma ApplyKeepsPlayer(s: GameState, k: nat, count: int)
    requires k < |s.piles| && (s.player == 0 || s.player == 1)
    ensures Apply(s, k, count).player == 0 || Apply(s, k, count).player == 1
  {
  }

  /** An accepted move never drives the chosen pile below zero, for any
      `count`, so non-negative piles stay non-negative. */
  lemma AcceptedMoveKeepsPilesNonNeg(s: GameState, pile: Option<int>, count: int)
    requires AllNonNeg(s.piles) && CheckMove(s.piles, pile, count).Accept?
    ensures AllNonNeg(Apply(s, CheckMove(s.piles, pile, count).index, count).piles)
  {
  }

  /** The state of a game that started from non-negative piles and has only
      been played by moves of at least one object: non-negative piles, a turn in {0, 1}, and a winner only
      once every pile is empty, that winner being the player to move. */
  predicate Consistent(s: GameState) {
    && (s.player == 0 || s.player == 1)
    && AllNonNeg(s.piles)
    && (s.winner.Some? ==> s.winner.value == s.player && AllZero(s.piles))
  }

  /** A freshly created game is consistent exactly when its piles are non-negative. */
  lemma FreshGameConsistent(piles: seq<int>, mode: string, aiPlayer: Option<int>)
    ensures Consistent(GameState(piles, 0, None, mode, aiPlayer)) <==> AllNonNeg(piles)
  {
  }

  /** Accepted moves that take at least one object keep a game consistent:
      none is accepted once there is a winner, and afterwards the winner is
      set exactly when the piles are all empty. */
  lemma PositiveMoveKeepsConsistent(s: GameState, pile: Option<int>, count: int)
    requires Consistent(s) && count >= 1 && CheckMove(s.piles, pile, count).Accept?
    ensures s.winner == None
    ensures var r := Apply(s, CheckMove(s.piles, pile, count).index, count);
            Consistent(r) && (r.winner.Some? <==> AllZero(r.piles))
  {
    var k := CheckMove(s.piles, pile, count).index;
    var r := Apply(s, k, count);
    ApplyPiles(s, k, count);
    ApplyTurn(s, k, count);
    SumZeroIffAllZero(s.piles);
    SumZeroIffAllZero(r.piles);
  }

  /** The opening move of the default game, one pile taken from: three
      objects from pile 1 leave [1, 0, 5, 7], no winner, player 1 to move. */
  lemma OpeningMove(mode: string, aiPlayer: Option<int>)
    ensures var s := GameState(DefaultPiles, 0, None, mode, aiPlayer);
            && CheckMove(s.piles, Some(1), 3) == Accept(1)
            && Apply(s, 1, 3) == GameState([1, 0, 5, 7], 1, None, mode, aiPlayer)
  {
    assert DefaultPiles[1 := 0] == [1, 0, 5, 7];
    assert Sum([1, 0, 5, 7]) == 13;
  }

  /** Taking the last object wins: from [1] with player 0 to move, the forced
      move makes player 0 the winner and player 0 stays the player to move. */
  lemma LastObjectWinsForMover(mode: string, aiPlayer: Option<int>)
    ensures var s := GameState([1], 0, None, mode, aiPlayer);
            && CheckMove(s.piles, Some(0), 1) == Accept(0)
            && Apply(s, 0, 1) == GameState([0], 0, Some(0), mode, aiPlayer)
  {
    assert [1][0 := 0] == [0];
    assert Sum([0]) == 0;
  }

  /** A negative pile index counts from the end: pile -1 of the default game is pile 3. */
  lemma NegativeIndexCountsFromEnd(count: int)
    requires count <= 7
    ensures CheckMove(DefaultPiles, Some(-1), count) == Accept(3)
    ensures CheckMove(DefaultPiles, Some(-5), count) == Crash
  {
  }

  /** The check lets a move through on a finished game, and with a negative
      count that move puts objects back while the recorded winner stays. */
  lemma MoveAfterWinRefills(mode: string, aiPlayer: Option<int>)
    ensures var s := GameState([0, 0], 0, Some(0), mode, aiPlayer);
            && CheckMove(s.piles, Some(0), -2) == Accept(0)
            && Apply(s, 0, -2) == GameState([2, 0], 1, Some(0), mode, aiPlayer)
  {
    assert [0, 0][0 := 2] == [2, 0];
    assert Sum([2, 0]) == 2;
  }

  /** A count of 0 on a board whose total is already 0 is accepted, leaves
      the piles as they were, and records the mover as winner without
      passing the turn. */
  lemma ZeroCountOnEmptyBoardWins(mode: string, aiPlayer: Option<int>)
    ensures var s := GameState([0, 0], 1, None, mode, aiPlayer);
            && CheckMove(s.piles, Some(0), 0) == Accept(0)
            && Apply(s, 0, 0) == GameState([0, 0], 1, Some(1), mode, aiPlayer)
  {
    assert [0, 0][0 := 0] == [0, 0];
    assert Sum([0, 0]) == 0;
  }

  /** A later emptying move overwrites a recorded winner: from [2, 0] with
      player 0 recorded as winner and player 1 to move, taking 2 from pile 0
      makes player 1 the winner. */
  lemma EmptyingMoveOverwritesWinner(mode: string, aiPlayer: Option<int>)
    ensures var s := GameState([2, 0], 1, Some(0), mode, aiPlayer);
            && CheckMove(s.piles, Some(0), 2) == Accept(0)
            && Apply(s, 0, 2) == GameState([0, 0], 1, Some(1), mode, aiPlayer)
  {
    assert [2, 0][0 := 0] == [0, 0];
    assert Sum([0, 0]) == 0;
  }

  /** `[i for i, p in enumerate(piles) if p > 0]`, counted from position `k`. */
  function NonEmptyFrom(piles: seq<int>, k: nat): (r: seq<nat>)
    requires k <= |piles|
    ensures forall i :: 0 <= i < |r| ==> k <= r[i] < |piles| && piles[r[i]] > 0
    ensures forall i :: k <= i < |piles| && piles[i] > 0 ==> i in r
    ensures forall i, j :: 0 <= i < j < |r| ==> r[i] < r[j]
    decreases |piles| - k
  {
    if k == |piles| then []
    else if piles[k] > 0 then [k] + NonEmptyFrom(piles, k + 1)
    else NonEmptyFrom(piles, k + 1)
  }

  /** The indices of the non-empty piles, in increasing order. */
  function NonEmpty(piles: seq<int>): (r: seq<nat>)
    ensures forall i :: 0 <= i < |r| ==> r[i] < |piles| && piles[r[i]] > 0
    ensures forall i :: 0 <= i < |piles| && piles[i] > 0 ==> i in r
    ensures forall i, j :: 0 <= i < j < |r| ==> r[i] < r[j]
  {
    NonEmptyFrom(piles, 0)
  }

  /** The computer player has no choice exactly when no pile holds a
      positive count; over non-negative piles, exactly when all are empty. */
  lemma NonEmptyIsEmptyIff(piles: seq<int>)
    ensures NonEmpty(piles) == [] <==> forall i :: 0 <= i < |piles| ==> piles[i] <= 0
    ensures AllNonNeg(piles) ==> (NonEmpty(piles) == [] <==> AllZero(piles))
  {
    var r := NonEmpty(piles);
    if r != [] {
      assert piles[r[0]] > 0;
    }
  }

  /** Any pile the computer player may pick, with any count in
      `1 .. piles[pile]`, passes the same check a submitted move does. */
  lemma AiChoiceIsLegal(piles: seq<int>, pile: nat, count: int)
    requires pile in NonEmpty(piles) && 1 <= count <= piles[pile]
    ensures CheckMove(piles, Some(pile), count) == Accept(pile)
  {
  }
}
