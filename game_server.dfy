/**
 The server's in-memory table of games and the three operations on it:
 creating a game, submitting a move, and letting the computer move. The
 table and the id counter are the server's two globals; a move rewrites
 the stored state of one game.
 */
module GameServer {
  import opened NimRules

  /** A move the computer player chose. */
  datatype Move = Move(pile: nat, count: int)

  /** What a request answers. */
  datatype Reply =
    | Ok(state: GameState)   // the game's state after the move
    | NotFound               // "Game not found"
    | Invalid                // "Invalid move"
    | GameOver               // "Game over": no pile left for the computer
    | ServerError            // an IndexError escaped the handler

  class GameTable {
    var games: map<nat, GameState>
    var counter: nat

    /** Every id handed out so far lies below the counter. */
    ghost predicate Valid()
      reads this
    {
      forall id :: id in games ==> id < counter
    }

    /** The table at server start: no games, counter at zero. */
    constructor ()
      ensures Valid() && games == map[] && counter == 0
    {
      games := map[];
      counter := 0;
    }

    /** Stores a new game under the current counter value and advances the
        counter. Missing request fields take their defaults. */
    method NewGame(initial: Option<seq<int>>, mode: Option<string>, aiPlayer: Option<int>)
      returns (id: nat, state: GameState)
      requires Valid()
      modifies this
      ensures Valid()
      ensures id == old(counter) && counter == old(counter) + 1
      ensures id !in old(games)
      ensures state.piles == initial.GetOr(DefaultPiles)
      ensures state.player == 0 && state.winner == None
      ensures state.mode == mode.GetOr(DefaultMode) && state.aiPlayer == aiPlayer
      ensures games == old(games)[id := state]
    {
      id := counter;
      counter := counter + 1;
      state := GameState(initial.GetOr(DefaultPiles), 0, None, mode.GetOr(DefaultMode), aiPlayer);
      games := games[id := state];
    }

    /** Applies a submitted move to game `id`. `count` defaults to 1. An
        unknown id, a rejected move or a failing subscript changes nothing. */
    method MakeMove(id: nat, pile: Option<int>, count: Option<int>) returns (r: Reply)
      requires Valid()
      modifies this
      ensures Valid() && counter == old(counter)
      ensures id !in old(games) ==> r == NotFound && games == old(games)
      ensures id in old(games) ==>
                var s, n := old(games)[id], count.GetOr(1);
                match CheckMove(s.piles, pile, n)
                case Reject => r == Invalid && games == old(games)
                case Crash => r == ServerError && games == old(games)
                case Accept(k) =>
                  r == Ok(Apply(s, k, n)) && games == old(games)[id := Apply(s, k, n)]
    {
      if id !in games {
        return NotFound;
      }
      var s := games[id];
      var n := count.GetOr(1);
      match CheckMove(s.piles, pile, n)
      case Reject =>
        r := Invalid;
      case Crash =>
        r := ServerError;
      case Accept(k) =>
        var next := Apply(s, k, n);
        games := games[id := next];
        r := Ok(next);
    }

    /** Lets the computer move in game `id`: some non-empty pile and some
        count from 1 to that pile's size, chosen freely. With no non-empty
        pile it answers GameOver and changes nothing. */
    method AiMove(id: nat) returns (r: Reply, chosen: Option<Move>)
      requires Valid()
      modifies this
      ensures Valid() && counter == old(counter)
      ensures id !in old(games) ==> r == NotFound && chosen == None && games == old(games)
      ensures id in old(games) && NonEmpty(old(games)[id].piles) == [] ==>
                r == GameOver && chosen == None && games == old(games)
      ensures id in old(games) && NonEmpty(old(games)[id].piles) != [] ==>
                var s := old(games)[id];
                && chosen.Some?
                && var m := chosen.value;
                && m.pile in NonEmpty(s.piles)
                && m.pile < |s.piles| && 1 <= m.count <= s.piles[m.pile]
                && CheckMove(s.piles, Some(m.pile), m.count) == Accept(m.pile)
                && r == Ok(Apply(s, m.pile, m.count))
                && games == old(games)[id := Apply(s, m.pile, m.count)]
    {
      if id !in games {
        return NotFound, None;
      }
      var s := games[id];
      var nonEmpty := NonEmpty(s.piles);
      if nonEmpty == [] {
        return GameOver, None;
      }
      assert nonEmpty[0] in nonEmpty;
      var pile :| pile in nonEmpty;
      assert 1 <= s.piles[pile];
      var count :| 1 <= count <= s.piles[pile];
      AiChoiceIsLegal(s.piles, pile, count);
      var next := Apply(s, pile, count);
      games := games[id := next];
      r, chosen := Ok(next), Some(Move(pile, count));
    }
  }

  /** A client of the table: the contracts alone fix the outcome of the
      opening move of a default game. */
  method OpeningClient() {
    var table := new GameTable();
    var id, state := table.NewGame(None, None, None);
    assert id == 0 && state == GameState(DefaultPiles, 0, None, DefaultMode, None);
    OpeningMove(DefaultMode, None);
    var r := table.MakeMove(id, Some(1), Some(3));
    assert r == Ok(GameState([1, 0, 5, 7], 1, None, DefaultMode, None));
    var unknown := table.MakeMove(id + 1, Some(0), None);
    assert unknown == NotFound;
  }
}
