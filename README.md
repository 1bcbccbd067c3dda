# Battleship rules engine, modelled in Dafny

`battleship.dfy` models `ShipGame.py`, a rules engine for two-player
Battleship. Each player has a 10x10 board with rows `A`-`J`. Each player
places ships on their own board. Players then take turns firing torpedoes at
the opponent's board, starting with player `first`. A ship is sunk when its
struck squares match its occupied squares. A player whose non-empty fleet is
entirely sunk has lost, once the opponent has placed a ship.

The module `Battleship` holds the whole model:

- `Ship` is a class. Its occupied squares (`occupied`) are fixed when it is
  created, and its struck squares (`hits`) are only appended to.
- `ShipGame` is a class with two fleets (`seq<Ship>`) and the player whose
  turn it is (`active`).
- A square `"<letter><number>"` becomes `Square(row, col)`. `row` is the
  letter's index in `ABCDEFGHIJ` and `col` is the number.
- The placement loops, the overlap test, the firing loops and the counting
  loop are methods with loop invariants. Each is proved against a function:
  `CandidateSquares` for the loops that build a ship's squares, `Overlapping`,
  `Matches` and `SunkCount`.
- `GameValid` is the game invariant that placement and firing preserve:
  - every ship has at least two squares and no repeated square;
  - ships of one fleet are different objects with disjoint squares;
  - no ship is on both boards;
  - every struck square is an occupied square.

The model keeps the code's behaviour, quirks included:

- **Sunk test.** `is_sunk` (lines 35-38) compares the struck list with the
  occupied list as lists. A ship struck in a different order from its squares
  is never reported sunk. Neither is a ship struck twice at one square.
  The header comment of `ShipGame.py` (line 6) says "A ship is sunk when all
  of its squares have been hit", which reads as set semantics, while the code
  at line 37 compares lists. Where the two disagree, the model follows the code.
  The lemmas `StrayHitIsPermanent`, `DuplicateHitIsStray` and
  `ReversedHitsNotSunk`, and the scenario `ReversedStrikesScenario`, state
  the consequences.
- **Row-wise squares.** A row-wise placement adds the loop index to a column
  counter that is never reset (lines 73-76). Square `i` therefore lies
  `i*(i+1)/2` columns past the anchor, so squares are skipped. The range test
  `col + length > 11` admits ships that run off the board.
- **Overlap test.** Only the placing player's own fleet is checked, so ships
  of the two players may share squares.

## Model

| member | source | states |
|---|---|---|
| Battleship.TriClosedForm | ShipGame.py:73-76 | Square i of a row-wise placement lies 0+1+...+i = i*(i+1)/2 columns past the anchor, the counter having moved by that much after the iteration with index i |
| Battleship.CandidateSquaresAt | ShipGame.py:63-76 | The candidate list has one square per iteration of `range(ship_length)`, square i being the one that iteration appends |
| Battleship.ColumnWiseSquares | ShipGame.py:64-69 | Column-wise, square i is i rows below the anchor in the anchor column; when the range test passes and the anchor is on the board, every square's row is on the board |
| Battleship.RowWiseSquares | ShipGame.py:70-76 | Row-wise, square i is in the anchor row, i*(i+1)/2 columns right of the anchor |
| Battleship.RowWiseNotContiguous | ShipGame.py:73-76 | A row-wise ship of three or more squares occupies anchor, anchor+1, anchor+3: column anchor+2 is skipped |
| Battleship.RowWiseLeavesBoard | ShipGame.py:71-76 | A row-wise ship of length 5 at column 1 passes the range test, yet occupies columns 1, 2, 4, 7 and 11 |
| Battleship.CandidateSquaresDistinct | ShipGame.py:63-76 | No candidate list repeats a square, in either orientation |
| Battleship.ColumnSquares | ShipGame.py:67-69 | The column-wise loop builds exactly the candidate list: its length is the iteration count and square i is (row+i, col) |
| Battleship.RowSquares | ShipGame.py:73-76 | The row-wise loop, with its accumulating counter, builds exactly the candidate list: square i is (row, col + i*(i+1)/2) |
| Battleship.Ship.constructor | ShipGame.py:14-25 | A new ship holds the given occupied squares and has no struck squares |
| Battleship.Ship.SetHitSquare | ShipGame.py:31-33 | The struck list gains the square at its end and is otherwise unchanged |
| Battleship.Ship.IsSunk | ShipGame.py:35-38 | Sunk is list equality of struck and occupied squares; a sunk ship has been struck once per square and at every occupied square |
| Battleship.StrayHitIsPermanent | ShipGame.py:35-38 | Once the struck list is not a prefix of the occupied list, no later strikes make the ship sunk |
| Battleship.DuplicateHitIsStray | ShipGame.py:35-38 | Striking an already-struck square of a ship without repeated squares puts its struck list off the occupied list for good |
| Battleship.ReversedHitsNotSunk | ShipGame.py:35-38 | A two-square ship struck at both squares in reverse order has every square struck yet is not sunk |
| Battleship.MatchesOfDistinct | ShipGame.py:129-132 | On a ship without repeated squares the inner firing loop appends the target exactly once if the ship occupies it, and nothing otherwise |
| Battleship.FireAtShip | ShipGame.py:130-132 | The inner firing loop appends one copy of the target per occupied square equal to it, and nothing else |
| Battleship.FireAtFleet | ShipGame.py:129-132 | The outer firing loop applies that to every ship of the fleet, each ship once |
| Battleship.Overlaps | ShipGame.py:78-88 | The three nested loops report a clash exactly when some candidate square is occupied by a ship of the given fleet |
| Battleship.CheckPlacement | ShipGame.py:61-90 | Placement is accepted exactly when the range test passes, no candidate square is occupied by the player's own ships, and the length is at least 2; an accepted list has at least two distinct squares, none occupied by that fleet |
| Battleship.AppendKeepsFleetLayout | ShipGame.py:78-98 | Appending a well-shaped ship whose squares no ship of the fleet occupies keeps the fleet's ships distinct and disjoint |
| Battleship.JoinKeepsGameValid | ShipGame.py:95-98 | A new unstruck ship that keeps its fleet's layout can join either fleet without breaking the game invariant |
| Battleship.SunkCount | ShipGame.py:150-160 | The number of sunk ships never exceeds the fleet's length |
| Battleship.RemainingZeroIffAllSunk | ShipGame.py:150-160 | A fleet has zero ships remaining if and only if every one of its ships is sunk |
| Battleship.ShipGame.constructor | ShipGame.py:46-51 | A new game has two empty fleets, `first` to fire, and satisfies the game invariant |
| Battleship.ShipGame.PlaceShip | ShipGame.py:53-99 | Accepted exactly under the three checks in source order; a refusal changes nothing; success appends one new unstruck ship holding the candidate squares to the placing player's fleet only; the turn never changes; the invariant is kept |
| Battleship.ShipGame.GetNumShipsRemaining | ShipGame.py:142-160 | The counting loop returns the fleet's length less its sunk ships, between 0 and the fleet's length |
| Battleship.ShipGame.Strike | ShipGame.py:128-139 | Every ship of the opponent that occupies the target gains it once at the end of its struck list; the firing player's ships are untouched; the turn passes to the opponent; the invariant is kept |
| Battleship.ShipGame.FireTorpedo | ShipGame.py:116-140 | Accepted exactly when the firing player is the active one and the game is unfinished; a refusal changes nothing; an accepted shot strikes the opponent as in Strike and flips the turn, hit or miss |
| Battleship.ShipGame.CurrentState | ShipGame.py:101-114 | SECOND_WON iff both fleets are non-empty and the first is entirely sunk; FIRST_WON iff both are non-empty, the first is not entirely sunk and the second is; UNFINISHED otherwise |
| Battleship.OutcomeMeaning | ShipGame.py:101-114 | Unfinished while either fleet is empty; a winner has struck every square of every losing ship |
| Battleship.OpeningPlacements | ShipGame.py:53-99 | In a new game, a row-wise ship at A1 for `first` and a column-wise one at A1 for `second` are both accepted, occupying A1,A2 and A1,B1 |
| Battleship.TradeHits | ShipGame.py:116-140 | From that opening, `first` then `second` fire at A1; both shots are accepted and each ship is struck at A1 |
| Battleship.MissAfterTrade | ShipGame.py:116-160 | Then `first` fires at A2: the shot is accepted and misses, leaving both struck lists at A1 and the turn with `second`; `second` has one ship remaining, and the game is unfinished |
| Battleship.ExchangeOfFire | ShipGame.py:53-160 | The three stages above played on one new game: all placements and shots accepted, one ship remaining for `second`, game unfinished |
| Battleship.StrikeSecondSquares | ShipGame.py:116-140 | From the opening, `first` hits B1 and `second` hits A2; both shots are accepted |
| Battleship.StrikeFirstSquare | ShipGame.py:116-160 | `first` then hits A1: every square of the second player's ship is struck, yet it still counts as remaining and the game is unfinished |
| Battleship.ReversedStrikesScenario | ShipGame.py:35-160 | The two stages above played on one new game: out-of-order strikes leave every square struck, one ship remaining, and the game unfinished |
| Battleship.OverlapRefusedScenario | ShipGame.py:78-90 | After the opening, a ship for `first` at A2 overlaps that player's ship: it is refused and the fleet keeps one ship |

## Left out

- Exceptions: `ship_coord[1]` raises for an anchor shorter than two characters (line 62), which the separate `row` and `col` parameters rule out; `rows.index` raises for a letter outside `A`-`J` in a column-wise placement, and `int(...)` raises for a non-digit column in a row-wise placement. These are preconditions of `PlaceShip` instead (`0 <= row < 10` for column-wise, `0 <= col <= 9` for both).
- Squares as strings: the model compares `Square` values, not `"<letter><number>"` strings. Each string the code builds maps to exactly one `Square`. A torpedo target of any other form occupies nothing, so it reaches the same outcomes as a missing square.
- Only `ship_coord[1]` is read as the column, always a single character. A column-wise placement with a non-digit column character (which the code would concatenate without complaint) is left out by the `0 <= col <= 9` precondition.
- Squares off the board (column 0, or the columns past 10 of a row-wise ship) are kept as the code keeps them; no check flags them, because the code has none.
- The row letter of a row-wise placement is never checked by the code; `row` is therefore any integer there, and no precondition is placed on it.
- Player and orientation strings are the datatypes `Player` and `Orientation`. `place_ship` (lines 79 and 95) and `get_num_ships_remaining` (line 150) treat every player other than `'first'` as `'second'`, while `fire_torpedo` refuses any firing player other than the active one (line 124); every orientation other than `'C'` is row-wise. Those other strings are not modelled.
- The getters `get_occupied_squares` and `get_hit_squares` return the lists themselves, so callers could mutate them. That aliasing is not modelled: `occupied` is a constant and `hits` changes only through `SetHitSquare`.
- `Ship()` followed by `set_occupied_squares` (lines 93-94) is one constructor taking the squares, since the code always does both together.
- `is_sunk` returns `True` or `None`, and the code tests `is True`; `IsSunk` returns a `bool`.
- `get_current_state` returns the strings `'UNFINISHED'`, `'FIRST_WON'` and `'SECOND_WON'`; they are the datatype `GameState`.
- No rule requires both players to place a ship before firing, and the code enforces none; firing at an empty fleet is accepted while the game is unfinished, as in the code.
