/**
 * A model of the two-player Battleship rules engine of ShipGame.py.
 *
 * A `Ship` keeps the list of squares it occupies and the list of squares a
 * torpedo has struck so far; a `ShipGame` keeps one fleet of ships per player
 * and the token of the player whose turn it is.  Placement builds a candidate
 * square list and appends a ship only when every check passes; firing appends
 * the target to the struck list of every opposing ship that occupies it and
 * hands the turn over; the outcome is derived on demand from the fleets.
 */
module Battleship {

  /** The two player tokens, 'first' and 'second'. */
  datatype Player = First | Second

  function Opponent(p: Player): Player
  {
    if p == First then Second else First
  }

  /** 'C' lays a ship down a column; every other orientation lays it along a row. */
  datatype Orientation = ColumnWise | RowWise

  datatype GameState = Unfinished | FirstWon | SecondWon

  /**
   * A square of a board: `row` is the index of the row letter in "ABCDEFGHIJ",
   * `col` the number written after the letter.  Squares are compared by value,
   * as the source compares its "<letter><number>" strings.
   */
  datatype Square = Square(row: int, col: int)

  /** The number of row letters, |"ABCDEFGHIJ"|. */
  const RowCount := 10

  // ---------------------------------------------------------------------------
  // Placement geometry
  // ---------------------------------------------------------------------------

  /**
   * 0 + 1 + ... + i.  In a row-wise placement the column counter is increased
   * by the loop index on every iteration, so square i lies Tri(i) columns past
   * the anchor.
   */
  function Tri(i: nat): nat
  {
    if i == 0 then 0 else Tri(i - 1) + i
  }

  lemma {:induction false} TriClosedForm(i: nat)
    ensures 2 * Tri(i) == i * (i + 1)
  {
    if i > 0 {
      TriClosedForm(i - 1);
    }
  }

  lemma {:induction false} TriStrictlyIncreasing(i: nat, j: nat)
    requires i < j
    ensures Tri(i) < Tri(j)
  {
    if i + 1 < j {
      TriStrictlyIncreasing(i, j - 1);
    }
  }

  /** The number of iterations of `for i in range(length)`. */
  function Iterations(length: int): nat
  {
    if length < 0 then 0 else length
  }

  /** Square i of a ship anchored at (row, col), as the placement loops compute it. */
  function SquareAt(row: int, col: int, i: nat, orientation: Orientation): Square
  {
    match orientation
    case ColumnWise => Square(row + i, col)
    case RowWise => Square(row, col + Tri(i))
  }

  /** The first n squares place_ship builds from the anchor, before the overlap and length checks. */
  function CandidateSquares(row: int, col: int, n: nat, orientation: Orientation): seq<Square>
  {
    if n == 0 then []
    else CandidateSquares(row, col, n - 1, orientation) + [SquareAt(row, col, n - 1, orientation)]
  }

  /** The board-range test of place_ship, one per orientation. */
  predicate OutOfBounds(row: int, col: int, length: int, orientation: Orientation)
  {
    match orientation
    case ColumnWise => row + length > 10
    case RowWise => col + length > 11
  }

  predicate NoDuplicates(squares: seq<Square>)
  {
    forall i, j :: 0 <= i < j < |squares| ==> squares[i] != squares[j]
  }

  predicate Disjoint(a: seq<Square>, b: seq<Square>)
  {
    forall sq :: sq in a ==> sq !in b
  }

  /** The candidate list has one square per iteration, square i being SquareAt(i). */
  lemma {:induction false} CandidateSquaresAt(row: int, col: int, n: nat, orientation: Orientation)
    ensures |CandidateSquares(row, col, n, orientation)| == n
    ensures forall i :: 0 <= i < n ==> CandidateSquares(row, col, n, orientation)[i] == SquareAt(row, col, i, orientation)
  {
    if n > 0 {
      CandidateSquaresAt(row, col, n - 1, orientation);
    }
  }

  /** A column-wise ship occupies consecutive rows of the anchor column; on the board when the range test passes. */
  lemma ColumnWiseSquares(row: int, col: int, length: int)
    ensures |CandidateSquares(row, col, Iterations(length), ColumnWise)| == Iterations(length)
    ensures forall i :: 0 <= i < Iterations(length) ==>
              CandidateSquares(row, col, Iterations(length), ColumnWise)[i] == Square(row + i, col)
    ensures 0 <= row && !OutOfBounds(row, col, length, ColumnWise) ==>
              forall sq :: sq in CandidateSquares(row, col, Iterations(length), ColumnWise) ==> 0 <= sq.row < RowCount
  {
    CandidateSquaresAt(row, col, Iterations(length), ColumnWise);
  }

  /** Square i of a row-wise ship lies i*(i+1)/2 columns past the anchor, in the anchor row. */
  lemma RowWiseSquares(row: int, col: int, length: int)
    ensures |CandidateSquares(row, col, Iterations(length), RowWise)| == Iterations(length)
    ensures forall i :: 0 <= i < Iterations(length) ==>
              CandidateSquares(row, col, Iterations(length), RowWise)[i] == Square(row, col + i * (i + 1) / 2)
  {
    CandidateSquaresAt(row, col, Iterations(length), RowWise);
    forall i | 0 <= i < Iterations(length)
      ensures CandidateSquares(row, col, Iterations(length), RowWise)[i] == Square(row, col + i * (i + 1) / 2)
    {
      TriClosedForm(i);
    }
  }

  /** A row-wise ship of three or more squares has a gap after its second square. */
  lemma RowWiseNotContiguous(row: int, col: int, length: int)
    requires length >= 3
    ensures CandidateSquares(row, col, Iterations(length), RowWise)[0] == Square(row, col)
    ensures CandidateSquares(row, col, Iterations(length), RowWise)[1] == Square(row, col + 1)
    ensures CandidateSquares(row, col, Iterations(length), RowWise)[2] == Square(row, col + 3)
  {
    CandidateSquaresAt(row, col, Iterations(length), RowWise);
    assert Tri(1) == 1;
    assert Tri(2) == 3;
  }

  /**
   * The row-wise range test admits a ship that runs off the board: anchored
   * at column 1 with length 5 it passes the test, but its last square is in
   * column 11.
   */
  lemma RowWiseLeavesBoard(row: int)
    ensures !OutOfBounds(row, 1, 5, RowWise)
    ensures CandidateSquares(row, 1, 5, RowWise)
            == [Square(row, 1), Square(row, 2), Square(row, 4), Square(row, 7), Square(row, 11)]
  {
    assert Tri(1) == 1 && Tri(2) == 3 && Tri(3) == 6 && Tri(4) == 10;
    CandidateSquaresAt(row, 1, 5, RowWise);
  }

  /** No candidate square list repeats a square, in either orientation. */
  lemma CandidateSquaresDistinct(row: int, col: int, n: nat, orientation: Orientation)
    ensures NoDuplicates(CandidateSquares(row, col, n, orientation))
  {
    var squares := CandidateSquares(row, col, n, orientation);
    CandidateSquaresAt(row, col, n, orientation);
    forall i, j | 0 <= i < j < |squares|
      ensures squares[i] != squares[j]
    {
      if orientation == RowWise {
        TriStrictlyIncreasing(i, j);
      }
    }
  }

  /** The loop of place_ship for a column-wise ship (lines 67-69). */
  method ColumnSquares(row: int, col: int, length: int) returns (squares: seq<Square>)
    ensures squares == CandidateSquares(row, col, Iterations(length), ColumnWise)
    ensures |squares| == Iterations(length)
    ensures forall i :: 0 <= i < |squares| ==> squares[i] == Square(row + i, col)
  {
    squares := [];
    var i := 0;
    while i < length
      invariant 0 <= i <= Iterations(length)
      invariant squares == CandidateSquares(row, col, i, ColumnWise)
    {
      squares := squares + [Square(row + i, col)];
      i := i + 1;
    }
    ColumnWiseSquares(row, col, length);
  }

  /**
   * The loop of place_ship for a row-wise ship (lines 73-76): the column
   * counter is not reset, so each iteration adds the loop index to it.
   */
  method RowSquares(row: int, col: int, length: int) returns (squares: seq<Square>)
    ensures squares == CandidateSquares(row, col, Iterations(length), RowWise)
    ensures |squares| == Iterations(length)
    ensures forall i :: 0 <= i < |squares| ==> squares[i] == Square(row, col + i * (i + 1) / 2)
  {
    squares := [];
    var column := col;
    var i := 0;
    while i < length
      invariant 0 <= i <= Iterations(length)
      invariant column + i == col + Tri(i)
      invariant squares == CandidateSquares(row, col, i, RowWise)
    {
      column := column + i;
      squares := squares + [Square(row, column)];
      i := i + 1;
    }
    RowWiseSquares(row, col, length);
  }

  // ---------------------------------------------------------------------------
  // Ship
  // ---------------------------------------------------------------------------

  class Ship {
    /**
     * The squares the ship occupies.  The source creates a ship and sets its
     * occupied list once, right away; here that list is given to the
     * constructor and never changes.
     */
    const occupied: seq<Square>
    /** The squares struck so far, in the order of the torpedoes; only ever appended to. */
    var hits: seq<Square>

    constructor (squares: seq<Square>)
      ensures occupied == squares && hits == []
    {
      occupied := squares;
      hits := [];
    }

    method SetHitSquare(square: Square)
      modifies this
      ensures hits == old(hits) + [square]
    {
      hits := hits + [square];
    }

    /**
     * A ship is sunk when its struck list equals its occupied list as lists:
     * the same squares, in the same order, each struck once.  Whenever it
     * reports sunk, every occupied square has been struck.
     */
    predicate IsSunk()
      reads this
      ensures IsSunk() ==> |hits| == |occupied|
      ensures IsSunk() ==> forall k :: 0 <= k < |occupied| ==> occupied[k] in hits
    {
      occupied == hits
    }
  }

  /** Being a prefix of another list. */
  predicate IsPrefix(a: seq<Square>, b: seq<Square>)
  {
    |a| <= |b| && a == b[..|a|]
  }

  /**
   * A struck list that has stopped being a prefix of the occupied list never
   * becomes equal to it however many squares are appended later, so the ship
   * is never reported sunk again.
   */
  lemma StrayHitIsPermanent(occupied: seq<Square>, hits: seq<Square>, later: seq<Square>)
    requires !IsPrefix(hits, occupied)
    ensures hits + later != occupied
  {
  }

  /**
   * A strike on an already struck square makes the struck list stop being a
   * prefix of an occupied list without repetitions.
   */
  lemma DuplicateHitIsStray(occupied: seq<Square>, hits: seq<Square>, i: nat, j: nat)
    requires NoDuplicates(occupied)
    requires i < j < |hits| && hits[i] == hits[j]
    ensures !IsPrefix(hits, occupied)
  {
  }

  /**
   * Striking both squares of a two-square ship in the reverse order leaves it
   * unsunk although every square has been struck.
   */
  lemma ReversedHitsNotSunk(ship: Ship, a: Square, b: Square)
    requires a != b && ship.occupied == [a, b] && ship.hits == [b, a]
    ensures forall sq :: sq in ship.occupied ==> sq in ship.hits
    ensures !ship.IsSunk()
  {
  }

  /**
   * The struck squares the inner loop of fire_torpedo appends to one ship:
   * one copy of the target for every occupied square equal to it.
   */
  function Matches(occupied: seq<Square>, target: Square): seq<Square>
  {
    if occupied == [] then []
    else Matches(occupied[..|occupied| - 1], target)
         + (if occupied[|occupied| - 1] == target then [target] else [])
  }

  /** On an occupied list without repetitions a torpedo strikes at most once, and only an occupied square. */
  lemma {:induction false} MatchesOfDistinct(occupied: seq<Square>, target: Square)
    requires NoDuplicates(occupied)
    ensures Matches(occupied, target) == if target in occupied then [target] else []
  {
    if occupied != [] {
      var init := occupied[..|occupied| - 1];
      assert occupied == init + [occupied[|occupied| - 1]];
      MatchesOfDistinct(init, target);
      if occupied[|occupied| - 1] == target {
        assert target !in init by {
          forall k | 0 <= k < |init|
            ensures init[k] != target
          {
            assert init[k] == occupied[k];
          }
        }
      }
    }
  }

  /** The inner loop of fire_torpedo (lines 130-132 and 136-138) on one ship. */
  method FireAtShip(ship: Ship, target: Square)
    modifies ship
    ensures ship.hits == old(ship.hits) + Matches(ship.occupied, target)
  {
    var squares := ship.occupied;
    var k := 0;
    while k < |squares|
      invariant 0 <= k <= |squares|
      invariant ship.hits == old(ship.hits) + Matches(squares[..k], target)
    {
      assert squares[..k + 1][..k] == squares[..k];
      if target == squares[k] {
        ship.SetHitSquare(target);
      }
      k := k + 1;
    }
    assert squares[..k] == squares;
  }

  /** The loops of fire_torpedo (lines 129-132 and 135-138) over the ships of one fleet. */
  method FireAtFleet(fleet: seq<Ship>, target: Square)
    requires forall i, j :: 0 <= i < j < |fleet| ==> fleet[i] != fleet[j]
    modifies fleet
    ensures forall j :: 0 <= j < |fleet| ==> fleet[j].hits == old(fleet[j].hits) + Matches(fleet[j].occupied, target)
  {
    var i := 0;
    while i < |fleet|
      invariant 0 <= i <= |fleet|
      invariant forall j :: 0 <= j < i ==> fleet[j].hits == old(fleet[j].hits) + Matches(fleet[j].occupied, target)
      invariant forall j :: i <= j < |fleet| ==> fleet[j].hits == old(fleet[j].hits)
    {
      FireAtShip(fleet[i], target);
      i := i + 1;
    }
  }

  // ---------------------------------------------------------------------------
  // Fleets
  // ---------------------------------------------------------------------------

  /** The shape every placed ship has: at least two squares, none repeated. */
  ghost predicate ShipShape(ship: Ship)
  {
    |ship.occupied| >= 2 && NoDuplicates(ship.occupied)
  }

  /** Every square struck on the ship is one of its occupied squares. */
  ghost predicate StruckOnlyOccupied(ship: Ship)
    reads ship
  {
    forall k :: 0 <= k < |ship.hits| ==> ship.hits[k] in ship.occupied
  }

  /** Two different ships with no square in common. */
  ghost predicate Compatible(a: Ship, b: Ship)
  {
    a != b && Disjoint(a.occupied, b.occupied)
  }

  /** One player's fleet: well-shaped, pairwise different ships with pairwise disjoint squares. */
  ghost predicate FleetLayout(fleet: seq<Ship>)
  {
    (forall i, j :: 0 <= i < j < |fleet| ==> Compatible(fleet[i], fleet[j]))
    && (forall i :: 0 <= i < |fleet| ==> ShipShape(fleet[i]))
  }

  ghost predicate FleetStruckOnlyOccupied(fleet: seq<Ship>)
    reads fleet
  {
    forall i :: 0 <= i < |fleet| ==> StruckOnlyOccupied(fleet[i])
  }

  /** No ship belongs to both fleets. */
  predicate Separate(a: seq<Ship>, b: seq<Ship>)
  {
    forall i, j :: 0 <= i < |a| && 0 <= j < |b| ==> a[i] != b[j]
  }

  /** The game invariant on the two fleets. */
  ghost predicate GameValid(first: seq<Ship>, second: seq<Ship>)
    reads first, second
  {
    FleetLayout(first) && FleetLayout(second) && Separate(first, second)
    && FleetStruckOnlyOccupied(first) && FleetStruckOnlyOccupied(second)
  }

  /** Appending a well-shaped ship whose squares no ship of the fleet occupies keeps the layout. */
  lemma AppendKeepsFleetLayout(fleet: seq<Ship>, ship: Ship)
    requires FleetLayout(fleet) && ShipShape(ship) && ship !in fleet
    requires forall j, k :: 0 <= j < |fleet| && 0 <= k < |ship.occupied| ==> ship.occupied[k] !in fleet[j].occupied
    ensures FleetLayout(fleet + [ship])
  {
  }

  /** A new, unstruck ship that keeps its fleet's layout can join either fleet. */
  lemma JoinKeepsGameValid(first: seq<Ship>, second: seq<Ship>, player: Player, ship: Ship)
    requires GameValid(first, second) && ship !in first && ship !in second && ship.hits == []
    requires FleetLayout((if player == First then first else second) + [ship])
    ensures player == First ==> GameValid(first + [ship], second)
    ensures player == Second ==> GameValid(first, second + [ship])
  {
  }

  /** No ship of the fleet has had its struck list changed. */
  twostate predicate Untouched(fleet: seq<Ship>)
    reads fleet
  {
    forall j :: 0 <= j < |fleet| ==> fleet[j].hits == old(fleet[j].hits)
  }

  /** Every ship of the fleet that occupies the target has gained it once at the end of its struck list; no other list changed. */
  twostate predicate StruckAt(fleet: seq<Ship>, target: Square)
    reads fleet
  {
    forall j :: 0 <= j < |fleet| ==>
      fleet[j].hits == old(fleet[j].hits) + (if target in fleet[j].occupied then [target] else [])
  }

  /** Some ship of the fleet occupies the square. */
  ghost predicate Occupied(fleet: seq<Ship>, square: Square)
    reads fleet
  {
    exists j :: 0 <= j < |fleet| && square in fleet[j].occupied
  }

  /** Some square of the list is already occupied by a ship of the fleet. */
  ghost predicate Overlapping(fleet: seq<Ship>, squares: seq<Square>)
    reads fleet
  {
    exists k :: 0 <= k < |squares| && Occupied(fleet, squares[k])
  }

  /** The overlap test of place_ship (lines 78-88): three nested loops with an early exit. */
  method Overlaps(fleet: seq<Ship>, squares: seq<Square>) returns (taken: bool)
    ensures taken <==> Overlapping(fleet, squares)
  {
    var k := 0;
    while k < |squares|
      invariant 0 <= k <= |squares|
      invariant forall k' :: 0 <= k' < k ==> !Occupied(fleet, squares[k'])
    {
      var j := 0;
      while j < |fleet|
        invariant 0 <= j <= |fleet|
        invariant forall j' :: 0 <= j' < j ==> squares[k] !in fleet[j'].occupied
      {
        var shipSquares := fleet[j].occupied;
        var m := 0;
        while m < |shipSquares|
          invariant 0 <= m <= |shipSquares|
          invariant squares[k] !in shipSquares[..m]
        {
          if shipSquares[m] == squares[k] {
            assert Occupied(fleet, squares[k]);
            return true;
          }
          assert shipSquares[..m + 1] == shipSquares[..m] + [shipSquares[m]];
          m := m + 1;
        }
        assert shipSquares[..m] == shipSquares;
        j := j + 1;
      }
      k := k + 1;
    }
    return false;
  }

  /**
   * The checks of place_ship (lines 61-90), in their order: the range test,
   * the overlap test against the placing player's fleet, the length test.
   * On success it also gives the square list the new ship will occupy.
   */
  method CheckPlacement(fleet: seq<Ship>, length: int, row: int, col: int, orientation: Orientation)
    returns (ok: bool, squares: seq<Square>)
    ensures ok <==> !OutOfBounds(row, col, length, orientation)
                    && !Overlapping(fleet, CandidateSquares(row, col, Iterations(length), orientation))
                    && length >= 2
    ensures ok ==> squares == CandidateSquares(row, col, Iterations(length), orientation)
    ensures ok ==> |squares| >= 2 && NoDuplicates(squares)
    ensures ok ==> forall j, k :: 0 <= j < |fleet| && 0 <= k < |squares| ==> squares[k] !in fleet[j].occupied
  {
    squares := [];
    if orientation == ColumnWise {
      if row + length > 10 {
        return false, squares;
      }
      squares := ColumnSquares(row, col, length);
    } else {
      if col + length > 11 {
        return false, squares;
      }
      squares := RowSquares(row, col, length);
    }
    var taken := Overlaps(fleet, squares);
    if taken {
      return false, squares;
    }
    if length < 2 {
      return false, squares;
    }
    CandidateSquaresDistinct(row, col, Iterations(length), orientation);
    forall j, k | 0 <= j < |fleet| && 0 <= k < |squares|
      ensures squares[k] !in fleet[j].occupied
    {
      assert !Occupied(fleet, squares[k]);
    }
    return true, squares;
  }

  /** The number of sunk ships of a fleet. */
  function SunkCount(fleet: seq<Ship>): (n: nat)
    reads fleet
    ensures n <= |fleet|
  {
    if fleet == [] then 0
    else SunkCount(fleet[..|fleet| - 1]) + (if fleet[|fleet| - 1].IsSunk() then 1 else 0)
  }

  /** The ships of a fleet that are not sunk: its length less its sunk ships. */
  function Remaining(fleet: seq<Ship>): nat
    reads fleet
  {
    |fleet| - SunkCount(fleet)
  }

  ghost predicate AllSunk(fleet: seq<Ship>)
    reads fleet
  {
    forall i :: 0 <= i < |fleet| ==> fleet[i].IsSunk()
  }

  /** A fleet has no ship remaining exactly when every one of its ships is sunk. */
  lemma {:induction false} RemainingZeroIffAllSunk(fleet: seq<Ship>)
    ensures Remaining(fleet) <= |fleet|
    ensures Remaining(fleet) == 0 <==> AllSunk(fleet)
  {
    if fleet != [] {
      var init := fleet[..|fleet| - 1];
      RemainingZeroIffAllSunk(init);
      assert forall i :: 0 <= i < |init| ==> init[i] == fleet[i];
      if !fleet[|fleet| - 1].IsSunk() {
        assert !AllSunk(fleet);
      }
    }
  }

  // ---------------------------------------------------------------------------
  // The game
  // ---------------------------------------------------------------------------

  class ShipGame {
    /** The ships on the first player's board, in placement order. */
    var firstShips: seq<Ship>
    /** The ships on the second player's board, in placement order. */
    var secondShips: seq<Ship>
    /** The player allowed to fire next. */
    var active: Player

    /** The game invariant: both fleets valid, and no ship on both boards. */
    ghost predicate Valid()
      reads this, firstShips, secondShips
    {
      GameValid(firstShips, secondShips)
    }

    function Fleet(p: Player): seq<Ship>
      reads this
    {
      if p == First then firstShips else secondShips
    }

    constructor ()
      ensures Valid()
      ensures firstShips == [] && secondShips == [] && active == First
    {
      firstShips := [];
      secondShips := [];
      active := First;
    }

    /**
     * Places a ship of `length` squares for `player`, anchored at row `row`
     * and column digit `col`.  It is refused when the range test fails, when
     * a candidate square is already occupied by one of the same player's
     * ships, or when the ship is shorter than two squares; a refusal changes
     * nothing.  Otherwise one new ship, unstruck, holding the candidate
     * squares, is appended to that player's fleet only.
     */
    method PlaceShip(player: Player, length: int, row: int, col: int, orientation: Orientation)
      returns (placed: bool)
      requires Valid()
      requires orientation == ColumnWise ==> 0 <= row < RowCount
      requires 0 <= col <= 9
      modifies this
      ensures Valid()
      ensures placed <==> !OutOfBounds(row, col, length, orientation)
                          && !old(Overlapping(Fleet(player), CandidateSquares(row, col, Iterations(length), orientation)))
                          && length >= 2
      ensures active == old(active)
      ensures !placed ==> firstShips == old(firstShips) && secondShips == old(secondShips)
      ensures placed ==> Fleet(Opponent(player)) == old(Fleet(Opponent(player)))
      ensures placed ==> |Fleet(player)| == |old(Fleet(player))| + 1
                         && Fleet(player)[..|old(Fleet(player))|] == old(Fleet(player))
      ensures placed ==> var ship := Fleet(player)[|Fleet(player)| - 1];
                         fresh(ship)
                         && ship.occupied == CandidateSquares(row, col, Iterations(length), orientation)
                         && ship.hits == []
    {
      var squares;
      placed, squares := CheckPlacement(Fleet(player), length, row, col, orientation);
      if placed {
        var ship := new Ship(squares);
        AppendKeepsFleetLayout(Fleet(player), ship);
        JoinKeepsGameValid(firstShips, secondShips, player, ship);
        if player == First {
          firstShips := firstShips + [ship];
          assert firstShips[..|firstShips| - 1] == old(firstShips);
        } else {
          secondShips := secondShips + [ship];
          assert secondShips[..|secondShips| - 1] == old(secondShips);
        }
      }
    }

    /**
     * The outcome of the game, derived from the two fleets: the second player
     * has won when both fleets are non-empty and the first is entirely sunk,
     * the first player has won when both are non-empty, the first is not
     * entirely sunk and the second is; otherwise the game is unfinished.
     */
    function CurrentState(): (state: GameState)
      reads this, firstShips, secondShips
      ensures state == SecondWon <==> firstShips != [] && secondShips != [] && AllSunk(firstShips)
      ensures state == FirstWon <==>
                firstShips != [] && secondShips != [] && !AllSunk(firstShips) && AllSunk(secondShips)
    {
      RemainingZeroIffAllSunk(firstShips);
      RemainingZeroIffAllSunk(secondShips);
      if firstShips == [] then Unfinished
      else if secondShips == [] then Unfinished
      else if Remaining(firstShips) == 0 then SecondWon
      else if Remaining(secondShips) == 0 then FirstWon
      else Unfinished
    }

    /** The counting loop of get_num_ships_remaining. */
    method GetNumShipsRemaining(player: Player) returns (remaining: int)
      ensures remaining == Remaining(Fleet(player))
      ensures 0 <= remaining <= |Fleet(player)|
    {
      var fleet := Fleet(player);
      remaining := |fleet|;
      var i := 0;
      while i < |fleet|
        invariant 0 <= i <= |fleet|
        invariant remaining == |fleet| - SunkCount(fleet[..i])
      {
        assert fleet[..i + 1][..i] == fleet[..i];
        if fleet[i].IsSunk() {
          remaining := remaining - 1;
        }
        i := i + 1;
      }
      assert fleet[..i] == fleet;
    }

    /**
     * The accepted branch of fire_torpedo (lines 128-139): strike the
     * opponent's fleet at the target, then hand the turn to the opponent.
     */
    method Strike(target: Square)
      requires Valid()
      modifies this, firstShips, secondShips
      ensures Valid()
      ensures active == Opponent(old(active))
      ensures firstShips == old(firstShips) && secondShips == old(secondShips)
      ensures Untouched(Fleet(old(active)))
      ensures StruckAt(Fleet(Opponent(old(active))), target)
    {
      var targets := Fleet(Opponent(active));
      FireAtFleet(targets, target);
      forall j | 0 <= j < |targets|
        ensures targets[j].hits == old(targets[j].hits) + (if target in targets[j].occupied then [target] else [])
      {
        MatchesOfDistinct(targets[j].occupied, target);
      }
      assert FleetStruckOnlyOccupied(targets);
      active := Opponent(active);
    }

    /**
     * Fires a torpedo from `firing` at `target`.  It is refused, changing
     * nothing, when `firing` is not the active player or the game is over.
     * Otherwise every ship of the opponent that occupies the target gets the
     * target appended to its struck list, no other list changes, and the turn
     * passes to the opponent, hit or miss.
     */
    method FireTorpedo(firing: Player, target: Square) returns (fired: bool)
      requires Valid()
      modifies this, firstShips, secondShips
      ensures Valid()
      ensures fired <==> firing == old(active) && old(CurrentState()) == Unfinished
      ensures active == if fired then Opponent(old(active)) else old(active)
      ensures firstShips == old(firstShips) && secondShips == old(secondShips)
      ensures Untouched(Fleet(firing))
      ensures if fired then StruckAt(Fleet(Opponent(firing)), target) else Untouched(Fleet(Opponent(firing)))
    {
      if firing != active {
        fired := false;
      } else if CurrentState() != Unfinished {
        fired := false;
      } else {
        Strike(target);
        fired := true;
      }
    }
  }

  /**
   * What the outcome means for the boards: the game is unfinished while
   * either fleet is empty, and a winner has struck every square of every
   * losing ship.
   */
  lemma OutcomeMeaning(game: ShipGame)
    ensures game.firstShips == [] || game.secondShips == [] ==> game.CurrentState() == Unfinished
    ensures game.CurrentState() == FirstWon ==>
              forall i, k :: 0 <= i < |game.secondShips| && 0 <= k < |game.secondShips[i].occupied| ==>
                game.secondShips[i].occupied[k] in game.secondShips[i].hits
    ensures game.CurrentState() == SecondWon ==>
              forall i, k :: 0 <= i < |game.firstShips| && 0 <= k < |game.firstShips[i].occupied| ==>
                game.firstShips[i].occupied[k] in game.firstShips[i].hits
  {
  }

  // ---------------------------------------------------------------------------
  // Scenarios
  // ---------------------------------------------------------------------------

  /**
   * The game after the opening placements: one ship per player, the first
   * player's at A1 and A2, the second player's at A1 and B1, with the given
   * struck lists and the given player to fire next.
   */
  ghost predicate Duel(game: ShipGame, firstHits: seq<Square>, secondHits: seq<Square>, turn: Player)
    reads game, game.firstShips, game.secondShips
  {
    game.Valid() && game.active == turn
    && |game.firstShips| == 1 && |game.secondShips| == 1
    && game.firstShips[0].occupied == [Square(0, 1), Square(0, 2)] && game.firstShips[0].hits == firstHits
    && game.secondShips[0].occupied == [Square(0, 1), Square(1, 1)] && game.secondShips[0].hits == secondHits
  }

  /**
   * A new game in which the first player places a two-square row-wise ship
   * at A1 and the second player a two-square column-wise ship at A1; both
   * placements are accepted although the two ships share A1, because only
   * the placing player's own board is checked.
   */
  method OpeningPlacements() returns (game: ShipGame, placedBoth: bool)
    ensures placedBoth
    ensures Duel(game, [], [], First)
    ensures fresh(game) && fresh(game.firstShips[0]) && fresh(game.secondShips[0])
  {
    game := new ShipGame();
    var placed1 := game.PlaceShip(First, 2, 0, 1, RowWise);
    assert Tri(1) == 1;
    CandidateSquaresAt(0, 1, 2, RowWise);
    var placed2 := game.PlaceShip(Second, 2, 0, 1, ColumnWise);
    CandidateSquaresAt(0, 1, 2, ColumnWise);
    placedBoth := placed1 && placed2;
  }

  /** From the opening, each player in turn hits A1 of the other's ship. */
  method TradeHits(game: ShipGame) returns (firedBoth: bool)
    requires Duel(game, [], [], First)
    modifies game, game.firstShips, game.secondShips
    ensures game.firstShips == old(game.firstShips) && game.secondShips == old(game.secondShips)
    ensures firedBoth
    ensures Duel(game, [Square(0, 1)], [Square(0, 1)], First)
  {
    var shot1 := game.FireTorpedo(First, Square(0, 1));
    var shot2 := game.FireTorpedo(Second, Square(0, 1));
    firedBoth := shot1 && shot2;
  }

  /**
   * After the traded hits the first player misses at A2: the shot is
   * accepted, the second player's ship, struck only at A1, is still afloat,
   * and the game goes on.
   */
  method MissAfterTrade(game: ShipGame) returns (fired: bool, remaining: int, state: GameState)
    requires Duel(game, [Square(0, 1)], [Square(0, 1)], First)
    modifies game, game.firstShips, game.secondShips
    ensures fired
    ensures Duel(game, [Square(0, 1)], [Square(0, 1)], Second)
    ensures remaining == 1 && state == Unfinished
  {
    fired := game.FireTorpedo(First, Square(0, 2));
    assert Duel(game, [Square(0, 1)], [Square(0, 1)], Second);
    remaining := game.GetNumShipsRemaining(Second);
    state := game.CurrentState();
  }

  /**
   * The opening placements, the traded hits and the miss at A2, played on
   * one new game: every placement and every shot is accepted, the second
   * player has one ship remaining, and the game is unfinished.
   */
  method ExchangeOfFire() returns (placedBoth: bool, firedAll: bool, remaining: int, state: GameState)
    ensures placedBoth && firedAll
    ensures remaining == 1 && state == Unfinished
  {
    var game;
    game, placedBoth := OpeningPlacements();
    var firedBoth := TradeHits(game);
    var shot3;
    shot3, remaining, state := MissAfterTrade(game);
    firedAll := firedBoth && shot3;
  }

  /**
   * From the opening, the first player hits B1 and the second player hits A2.
   */
  method StrikeSecondSquares(game: ShipGame) returns (firedBoth: bool)
    requires Duel(game, [], [], First)
    modifies game, game.firstShips, game.secondShips
    ensures game.firstShips == old(game.firstShips) && game.secondShips == old(game.secondShips)
    ensures firedBoth
    ensures Duel(game, [Square(0, 2)], [Square(1, 1)], First)
  {
    var shot1 := game.FireTorpedo(First, Square(1, 1));
    var shot2 := game.FireTorpedo(Second, Square(0, 2));
    firedBoth := shot1 && shot2;
  }

  /**
   * The first player then hits A1: both squares of the second player's ship
   * have been struck, B1 before A1, yet the ship is not sunk, so the second
   * player still has one ship remaining and the game is unfinished.
   */
  method StrikeFirstSquare(game: ShipGame) returns (fired: bool, allStruck: bool, remaining: int, state: GameState)
    requires Duel(game, [Square(0, 2)], [Square(1, 1)], First)
    modifies game, game.firstShips, game.secondShips
    ensures fired && allStruck
    ensures remaining == 1 && state == Unfinished
  {
    fired := game.FireTorpedo(First, Square(0, 1));
    assert Duel(game, [Square(0, 2)], [Square(1, 1), Square(0, 1)], Second);
    var ship := game.secondShips[0];
    allStruck := ship.occupied[0] in ship.hits && ship.occupied[1] in ship.hits;
    assert ship.hits != ship.occupied by {
      ReversedHitsNotSunk(ship, Square(0, 1), Square(1, 1));
    }
    remaining := game.GetNumShipsRemaining(Second);
    state := game.CurrentState();
  }

  /**
   * The opening placements followed by strikes on the second player's ship
   * in the reverse of its square order, played on one new game.
   */
  method ReversedStrikesScenario() returns (firedAll: bool, allStruck: bool, remaining: int, state: GameState)
    ensures firedAll && allStruck
    ensures remaining == 1 && state == Unfinished
  {
    var game, placedBoth := OpeningPlacements();
    var firedBoth := StrikeSecondSquares(game);
    var fired;
    fired, allStruck, remaining, state := StrikeFirstSquare(game);
    firedAll := firedBoth && fired;
  }

  /**
   * Over the opening placements, a column-wise ship for the first player at
   * A2 would share A2 with that player's ship: it is refused and the first
   * player's fleet keeps its one ship.
   */
  method OverlapRefusedScenario() returns (placed: bool, fleetSize: int)
    ensures !placed && fleetSize == 1
  {
    var game, placedBoth := OpeningPlacements();
    assert Occupied(game.firstShips, Square(0, 2));
    CandidateSquaresAt(0, 2, 2, ColumnWise);
    placed := game.PlaceShip(First, 2, 0, 2, ColumnWise);
    fleetSize := |game.firstShips|;
  }
}
