# Nim game server: the turn engine

This project models the game logic in `backend/server.py` of a small Nim web
application. The server keeps an in-memory table of games keyed by a counter.
It has three operations:

- **new game**: stores a game with the given piles (default `[1, 3, 5, 7]`), player 0 to move and no winner;
- **move**: validates a submitted `(pile, count)` and takes `count` objects from that pile;
- **AI move**: takes a random count from a random non-empty pile.

After a move, if the piles add up to zero, the player who moved is recorded
as the winner and keeps the turn. Otherwise the turn passes to `1 - player`.

The model has two modules:

- `NimRules` (`nim_rules.dfy`) holds the values: the game state, Python's
  list subscript, the legality check of line 50, the update of lines 53-57
  (`Apply`), the `non_empty` comprehension of line 70, and the lemmas about them.
- `GameServer` (`game_server.dfy`) holds the class `GameTable`. Its fields
  `games: map<nat, GameState>` and `counter: nat` are the server's two globals.
  Its methods `NewGame`, `MakeMove` and `AiMove` are the three request handlers,
  minus the HTTP layer. A move rewrites the one map entry it touches, and each
  move method's contract gives the whole new table in terms of `Apply`.

The model follows the code as written, including where plain Nim would differ:

- The check on line 50 does not look at the sign of `count`. A negative
  count puts objects back (`CheckMove`, `MoveAfterWinRefills`). A count of 0
  passes the turn, unless the piles already add up to 0. Then the mover is
  recorded as winner and keeps the turn (`ZeroCountOnEmptyBoardWins`).
- A recorded winner is overwritten by any later move that leaves the total
  at 0 (`EmptyingMoveOverwritesWinner`).
- The check does not look at the winner. A game that is already won still
  accepts moves, such as a negative count on an empty board
  (`MoveAfterWinRefills`).
- A negative `pile` is a Python index from the end of the list. Below
  `-len(piles)`, the subscript raises IndexError. The reply is then
  `ServerError` and nothing changes (`PyIndex`, `NegativeIndexCountsFromEnd`).
- The player who takes the last object is the winner
  (`LastObjectWinsForMover`). The misère reading, where that player loses,
  is not what `backend/server.py` does, so the model does not use it.
- "All piles empty" is tested as `sum(piles) == 0`. Piles supplied at
  creation may be negative, so the two can differ. Over non-negative piles
  they agree (`SumZeroIffAllZero`).

`Consistent` states what holds in a game played only with moves of at least
one object from non-negative piles. `PositiveMoveKeepsConsistent` proves such
moves keep it, and every AI move is such a move.

The request fields become parameters. An absent JSON field is `None`:

- `initial` and `mode` fall back to `DefaultPiles` and `DefaultMode`;
- `count` falls back to 1;
- `pile` stays `Option<int>`, because line 50 tests it against `None`.

The random choice in `ai_move` is an unconstrained choice (`:|`) of a
non-empty pile and a count in `1 .. piles[pile]`. `AiMove` returns the move it
chose.

## Model

| member | source | states |
|---|---|---|
| `NimRules.Sum` | backend/server.py:54 | Python's `sum`. Over non-negative piles the total is non-negative and no pile exceeds it. |
| `NimRules.SumUpdate` | backend/server.py:53-54 | Replacing one pile's count changes `sum(piles)` by exactly the difference. |
| `NimRules.SumZeroIffAllZero` | backend/server.py:54 | Over non-negative piles the total is non-negative, and it is zero exactly when every pile is zero. |
| `NimRules.PyIndex` | backend/server.py:50 | A Python subscript denotes a position exactly when `-len <= i < len`. That position is `i`, or `i + len` for negative `i`. Otherwise IndexError. |
| `NimRules.CheckMove` | backend/server.py:46-51 | Exactly when line 50's check accepts, rejects, or raises: reject for absent `pile`, for `pile >= len(piles)`, or for a pile holding less than `count`; raise for `pile < -len(piles)`. An accepted move names a real pile holding at least `count`. |
| `NimRules.CheckMoveNonNegativeIndex` | backend/server.py:50 | For `pile >= 0` the check accepts exactly when `pile < len(piles)` and `count <= piles[pile]`, for any sign of `count`. |
| `NimRules.Apply` | backend/server.py:53-57 | The update of an accepted move. It keeps the number of piles and the stored `mode`/`ai_player`. The turn stays exactly when the piles add up to 0 afterwards. The winner then becomes the mover, and is otherwise unchanged. `ApplyPiles` and `ApplyTurn` fully characterise it in terms of the old state. |
| `NimRules.ApplyPiles` | backend/server.py:53 | An accepted move changes only the chosen pile, lowers it by exactly `count`, keeps the length and the stored `mode`/`ai_player`, and lowers the total by exactly `count`. |
| `NimRules.ApplyTurn` | backend/server.py:54-57 | If the move takes the whole remaining total, the winner becomes the mover and the turn stays. Otherwise the turn becomes `1 - player` and the winner is unchanged. |
| `NimRules.ApplyKeepsPlayer` | backend/server.py:55-57 | A turn indicator in {0, 1} stays in {0, 1}. |
| `NimRules.AcceptedMoveKeepsPilesNonNeg` | backend/server.py:50-53 | After an accepted move, with any `count`, non-negative piles stay non-negative. |
| `NimRules.FreshGameConsistent` | backend/server.py:27-33 | A new state (player 0, no winner) is consistent exactly when its piles are non-negative. |
| `NimRules.PositiveMoveKeepsConsistent` | backend/server.py:50-57 | Moves of at least one object keep a consistent game consistent. None is accepted once a winner is set. Afterwards the winner is set exactly when all piles are empty. |
| `NimRules.OpeningMove` | backend/server.py:18-57 | From the default `[1, 3, 5, 7]`, three from pile 1 is accepted. It leaves `[1, 0, 5, 7]`, no winner, player 1 to move. |
| `NimRules.LastObjectWinsForMover` | backend/server.py:54-55 | From `[1]` with player 0 to move, the forced move makes player 0 the winner. |
| `NimRules.NegativeIndexCountsFromEnd` | backend/server.py:50 | Pile `-1` of `[1, 3, 5, 7]` is pile 3. Pile `-5` raises. |
| `NimRules.MoveAfterWinRefills` | backend/server.py:50-57 | A won game with empty piles accepts a count of `-2`. The pile refills, the winner stays recorded, and the turn passes. |
| `NimRules.ZeroCountOnEmptyBoardWins` | backend/server.py:50-57 | From `[0, 0]` with player 1 to move, a count of 0 is accepted. It leaves the piles as they were, records player 1 as winner and keeps the turn. |
| `NimRules.EmptyingMoveOverwritesWinner` | backend/server.py:50-57 | From `[2, 0]` with player 0 recorded as winner and player 1 to move, taking 2 from pile 0 makes player 1 the winner. |
| `NimRules.NonEmptyFrom` | backend/server.py:70 | The comprehension from position `k` lists exactly the positive piles at or after `k`, in strictly increasing order. |
| `NimRules.NonEmpty` | backend/server.py:70 | `non_empty` lists exactly the indices of the positive piles, in strictly increasing order. |
| `NimRules.NonEmptyIsEmptyIff` | backend/server.py:70-72 | `non_empty` is empty exactly when no pile is positive. Over non-negative piles, exactly when all are zero. |
| `NimRules.AiChoiceIsLegal` | backend/server.py:74-76 | Any pile from `non_empty` with any count in `1 .. piles[pile]` passes line 50's check on that same pile. |
| `GameServer.GameTable.constructor` | backend/server.py:10-11 | The table starts empty with the counter at 0. |
| `GameServer.GameTable.NewGame` | backend/server.py:15-36 | The new id is the old counter value, which no stored game has. The counter grows by exactly 1. The stored state has the given or default piles and mode, player 0, no winner and the given `ai_player`. No other game changes. |
| `GameServer.GameTable.MakeMove` | backend/server.py:40-59 | Unknown id: not found, nothing changes. Rejected or raising check: invalid or server error, nothing changes. Otherwise the game's state becomes `Apply` of the old state. `count` defaults to 1. The counter and every other game stay as they were. |
| `GameServer.GameTable.AiMove` | backend/server.py:63-82 | Unknown id: not found, nothing changes. No positive pile: game over, nothing changes. Otherwise the chosen pile is in `non_empty` and the count lies in `1 .. piles[pile]`. The move passes line 50's check, and the game's state becomes `Apply` of the old state. Every other game stays as it was. |

## Left out

- The Flask layer (routing, `request.get_json`, `jsonify`, HTTP status codes, CORS) is left out. Replies are the `Reply` datatype.
- `serve_react`, the static-file lookup and the `app.run`/`PORT` startup are left out. They are file-system and network I/O.
- The random number generator is left out. The AI's pile and count are an unconstrained legal choice, not a probability distribution.
- Game ids are the counter itself, not `str(counter)`. A URL id that is not `str(n)` for a stored `n` (including forms such as `"01"` or `"+1"`) is answered "not found", which is the model's reply for an id not in the table.
- Request fields of other JSON types are left out: a float or string `pile`, a non-integer `count`, a `null` or non-list `initial`. Python either raises on those or goes on computing with the non-integer value (a float `count` passes line 50 and makes the pile a float). Neither is modelled. `mode` is a string and `ai_player` an optional integer.
- The stored `piles` list is the request's own `initial` list object. That aliasing is invisible to later requests, and game states are modelled as values.
- Concurrent requests on the shared table are left out. The model is sequential.
- The learning agent (`train`, the value table, the epsilon-greedy policy, self-play with lagged rewards) is left out. It lives in the module `nim` that `backend/play.py` imports, and that module is not part of this model. `backend/play.py` itself only calls it and pickles the result to a file.
- `make_favicon.py` and the React front end are left out. They draw an image and render the board, and hold no game logic.
