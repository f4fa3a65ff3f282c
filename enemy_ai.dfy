/** The movement rules shared by every enemy AI (AbstractEnemyAI): stepping
    a coordinate in a heading, probing the board, recovering a heading from
    two coordinates, filtering the headings an enemy may take, and the
    forced move. The board is the predicate BookingGameBoard.isCoordinateValid;
    the moving move types (MoveType.getMovingMoveTypes) are a parameter. */
module EnemyAI {
  import opened Wrappers
  import opened Moves

  /** What the rules read of an enemy: its coordinate and its heading,
      which may be null. */
  datatype Enemy = Enemy(coordinate: Point, direction: Option<Heading>)

  /** getMovedCoordinate: the neighbour of p in heading h; a null heading
      leaves p where it is. */
  function MovedCoordinate(p: Point, h: Option<Heading>): (r: Point)
    ensures h.None? ==> r == p
    ensures h.Some? ==> Distance(p, r) == 1
    ensures h.Some? && IsVertical(h.value) ==> r.x == p.x
    ensures h.Some? && !IsVertical(h.value) ==> r.y == p.y
    ensures h == Some(Up) ==> r.y < p.y
    ensures h == Some(Down) ==> r.y > p.y
    ensures h == Some(Left) ==> r.x < p.x
    ensures h == Some(Right) ==> r.x > p.x
  {
    match h
    case None => p
    case Some(Up) => Point(p.x, p.y - 1)
    case Some(Down) => Point(p.x, p.y + 1)
    case Some(Right) => Point(p.x + 1, p.y)
    case Some(Left) => Point(p.x - 1, p.y)
  }

  /** isEmptyInDirection: false for a null heading, otherwise whether the
      board lets an enemy onto the neighbour in that heading. */
  function IsEmptyInDirection(p: Point, h: Option<Heading>, board: Point -> bool): (r: bool)
    ensures h.None? ==> !r
    ensures h.Some? ==> (r <==> board(MovedCoordinate(p, h)))
  {
    if h.None? then false else board(MovedCoordinate(p, h))
  }

  /** getDirection: the heading that leads from `from` towards `to`. A
      change of x wins over a change of y, so a diagonal or distant target
      gives a horizontal heading; equal coordinates give null. */
  function DirectionBetween(from: Point, to: Point): (r: Option<Heading>)
    ensures r == Some(Right) <==> to.x > from.x
    ensures r == Some(Left) <==> to.x < from.x
    ensures r == Some(Down) <==> to.x == from.x && to.y > from.y
    ensures r == Some(Up) <==> to.x == from.x && to.y < from.y
    ensures r == None <==> from == to
  {
    if to.x > from.x then Some(Right)
    else if to.x < from.x then Some(Left)
    else if to.y > from.y then Some(Down)
    else if to.y < from.y then Some(Up)
    else None
  }

  /** Stepping in a heading and asking for the heading of the step gives the
      heading back. */
  lemma DirectionOfStep(p: Point, d: Heading)
    ensures DirectionBetween(p, MovedCoordinate(p, Some(d))) == Some(d)
  {
  }

  /** The converse: the heading towards an orthogonal neighbour steps onto
      that neighbour. */
  lemma StepToNeighbour(p: Point, q: Point)
    requires Distance(p, q) == 1
    ensures DirectionBetween(p, q).Some?
    ensures MovedCoordinate(p, DirectionBetween(p, q)) == q
  {
  }

  /** Equal coordinates have no heading between them. */
  lemma NoDirectionInPlace(p: Point)
    ensures DirectionBetween(p, p) == None
  {
  }

  /** A step followed by a step in the opposite heading returns to the start. */
  lemma StepBack(p: Point, d: Heading)
    ensures MovedCoordinate(MovedCoordinate(p, Some(d)), Some(Opposite(d))) == p
  {
  }

  /** isEmptyInDirection probes exactly the neighbour that lies in the given
      heading. */
  lemma ProbesNeighbourInHeading(p: Point, q: Point, board: Point -> bool)
    requires Distance(p, q) == 1
    ensures IsEmptyInDirection(p, DirectionBetween(p, q), board) == board(q)
  {
  }

  /** The filter condition of getAvailableDirections for heading h: not the
      reverse of the current heading, and passable. */
  predicate IsAvailable(coordinate: Point, current: Heading, board: Point -> bool, h: Heading) {
    h != Opposite(current) && IsEmptyInDirection(coordinate, Some(h), board)
  }

  /** a is an order-preserving subsequence of b. */
  ghost predicate IsSubsequence<T>(a: seq<T>, b: seq<T>)
    decreases |b|
  {
    a == [] || (b != [] && ((a[0] == b[0] && IsSubsequence(a[1..], b[1..])) || IsSubsequence(a, b[1..])))
  }

  /** getAvailableDirections: the moving move types, in their order, that
      are not the reverse of the enemy's heading and lead onto a passable
      cell. The reverse is taken of enemy.getDirection() for every element,
      so a null heading is only harmless when there are no moving types. */
  function AvailableDirections(enemy: Enemy, board: Point -> bool, moving: seq<Heading>): (r: seq<Heading>)
    requires moving != [] ==> enemy.direction.Some?
    ensures |r| <= |moving|
  {
    if moving == [] then []
    else
      var rest := AvailableDirections(enemy, board, moving[1..]);
      if IsAvailable(enemy.coordinate, enemy.direction.value, board, moving[0]) then [moving[0]] + rest else rest
  }

  /** The available directions keep the order of the moving move types. */
  lemma {:induction false} AvailableIsSubsequence(enemy: Enemy, board: Point -> bool, moving: seq<Heading>)
    requires moving != [] ==> enemy.direction.Some?
    ensures IsSubsequence(AvailableDirections(enemy, board, moving), moving)
    decreases |moving|
  {
    if moving != [] {
      AvailableIsSubsequence(enemy, board, moving[1..]);
      var r := AvailableDirections(enemy, board, moving);
      if IsAvailable(enemy.coordinate, enemy.direction.value, board, moving[0]) {
        assert r[0] == moving[0] && r[1..] == AvailableDirections(enemy, board, moving[1..]);
      }
    }
  }

  /** A heading is available exactly when it is a moving type that passes
      both tests. */
  lemma {:induction false} AvailableMembership(enemy: Enemy, board: Point -> bool, moving: seq<Heading>, h: Heading)
    requires moving != [] ==> enemy.direction.Some?
    ensures h in AvailableDirections(enemy, board, moving) <==>
            h in moving && IsAvailable(enemy.coordinate, enemy.direction.value, board, h)
    decreases |moving|
  {
    if moving != [] {
      AvailableMembership(enemy, board, moving[1..], h);
      assert moving == [moving[0]] + moving[1..];
    }
  }

  /** An available heading keeps every occurrence it has among the moving
      types; one that fails a test keeps none. Together with
      AvailableIsSubsequence this fixes the result completely. */
  lemma {:induction false} AvailableMultiplicity(enemy: Enemy, board: Point -> bool, moving: seq<Heading>, h: Heading)
    requires moving != [] ==> enemy.direction.Some?
    ensures multiset(AvailableDirections(enemy, board, moving))[h] ==
            if moving != [] && IsAvailable(enemy.coordinate, enemy.direction.value, board, h) then multiset(moving)[h] else 0
    decreases |moving|
  {
    if moving != [] {
      AvailableMultiplicity(enemy, board, moving[1..], h);
      assert moving == [moving[0]] + moving[1..];
    }
  }

  /** The reverse of the enemy's heading is never offered. */
  lemma NeverOffersReverse(enemy: Enemy, board: Point -> bool, moving: seq<Heading>)
    requires enemy.direction.Some?
    ensures Opposite(enemy.direction.value) !in AvailableDirections(enemy, board, moving)
  {
  }

  /** Every offered heading leads onto a cell the board accepts. */
  lemma OffersOnlyPassable(enemy: Enemy, board: Point -> bool, moving: seq<Heading>, i: nat)
    requires moving != [] ==> enemy.direction.Some?
    requires i < |AvailableDirections(enemy, board, moving)|
    ensures board(MovedCoordinate(enemy.coordinate, Some(AvailableDirections(enemy, board, moving)[i])))
  {
    var r := AvailableDirections(enemy, board, moving);
    assert r[i] in r;
    AvailableMembership(enemy, board, moving, r[i]);
  }

  /** mandatoryTranform, as written: the branch depends on the number of
      moving move types, not on the available directions. With none the
      enemy stays, with one it steps along that type, with two it steps
      along its own heading (staying put when that is null), and with more
      there is no forced move (null). */
  function MandatoryTransform(enemy: Enemy, moving: seq<Heading>): (r: Option<Point>)
    ensures r.Some? <==> |moving| <= 2
    ensures r.Some? ==> Distance(enemy.coordinate, r.value) <= 1
    ensures |moving| == 0 ==> r == Some(enemy.coordinate)
    ensures |moving| == 1 ==> DirectionBetween(enemy.coordinate, r.value) == Some(moving[0])
    ensures |moving| == 2 ==> DirectionBetween(enemy.coordinate, r.value) == enemy.direction
  {
    match |moving|
    case 0 => Some(enemy.coordinate)
    case 1 => Some(MovedCoordinate(enemy.coordinate, Some(moving[0])))
    case 2 => Some(MovedCoordinate(enemy.coordinate, enemy.direction))
    case _ => None
  }

  /** Nothing but the size of the moving-type list decides whether a forced
      move exists. */
  lemma ForcedMoveDependsOnlyOnCount(e1: Enemy, e2: Enemy, m1: seq<Heading>, m2: seq<Heading>)
    requires |m1| == |m2|
    ensures MandatoryTransform(e1, m1).Some? == MandatoryTransform(e2, m2).Some?
  {
  }

  /** The assumed result of MoveType.getMovingMoveTypes: the four headings.
      No lemma that uses it depends on their order. */
  const FOUR_HEADINGS: seq<Heading> := [Up, Down, Left, Right]

  /** As written, with the game's four moving headings there is never a
      forced move, whatever the enemy and the board. */
  lemma MandatoryTransformNeverForces(enemy: Enemy)
    ensures MandatoryTransform(enemy, FOUR_HEADINGS) == None
  {
  }

  /** The evidently intended forced move: dispatch on the number of
      AVAILABLE directions, and in the one-direction case take that
      direction. */
  function MandatoryTransformIntended(enemy: Enemy, board: Point -> bool, moving: seq<Heading>): (r: Option<Point>)
    requires moving != [] ==> enemy.direction.Some?
    ensures var n := |AvailableDirections(enemy, board, moving)|;
      (r.Some? <==> n <= 2) &&
      (r.Some? ==> Distance(enemy.coordinate, r.value) <= 1) &&
      (n == 0 ==> r == Some(enemy.coordinate)) &&
      (n == 1 ==> board(r.value) && Distance(enemy.coordinate, r.value) == 1 &&
                  DirectionBetween(enemy.coordinate, r.value) == Some(AvailableDirections(enemy, board, moving)[0])) &&
      (n == 2 ==> DirectionBetween(enemy.coordinate, r.value) == enemy.direction)
  {
    var available := AvailableDirections(enemy, board, moving);
    match |available|
    case 0 => Some(enemy.coordinate)
    case 1 =>
      OffersOnlyPassable(enemy, board, moving, 0);
      Some(MovedCoordinate(enemy.coordinate, Some(available[0])))
    case 2 => Some(MovedCoordinate(enemy.coordinate, enemy.direction))
    case _ => None
  }

  /** The intended forced move never reverses the enemy: when it moves at
      all, the step is not in the opposite of its heading. */
  lemma IntendedNeverReverses(enemy: Enemy, board: Point -> bool, moving: seq<Heading>)
    requires enemy.direction.Some?
    requires MandatoryTransformIntended(enemy, board, moving).Some?
    ensures var q := MandatoryTransformIntended(enemy, board, moving).value;
      q != enemy.coordinate ==> DirectionBetween(enemy.coordinate, q) != Some(Opposite(enemy.direction.value))
  {
    var available := AvailableDirections(enemy, board, moving);
    if |available| == 1 {
      assert available[0] in available;
      AvailableMembership(enemy, board, moving, available[0]);
    }
  }

  /** Whenever the cell ahead of an enemy is the only passable cell around
      it (for instance an enemy at (1, 1) heading RIGHT where only (2, 1) is
      open), the code as written has no forced move, while the intended
      rule steps the enemy onto that cell. */
  lemma SingleExitCounterexample(enemy: Enemy, board: Point -> bool)
    requires enemy.direction.Some?
    requires forall q :: board(q) <==> q == MovedCoordinate(enemy.coordinate, enemy.direction)
    ensures MandatoryTransform(enemy, FOUR_HEADINGS) == None
    ensures MandatoryTransformIntended(enemy, board, FOUR_HEADINGS) == Some(MovedCoordinate(enemy.coordinate, enemy.direction))
  {
    var c, d := enemy.coordinate, enemy.direction.value;
    var r := AvailableDirections(enemy, board, FOUR_HEADINGS);
    forall h: Heading
      ensures multiset(r)[h] == multiset{d}[h]
    {
      AvailableMultiplicity(enemy, board, FOUR_HEADINGS, h);
      DirectionOfStep(c, h);
      DirectionOfStep(c, d);
    }
    assert multiset(r) == multiset{d};
    assert |r| == |multiset(r)| == 1;
    assert r[0] in multiset(r);
  }
}
