/** The values the enemy AI computes with: grid coordinates (java.awt.Point)
    and the headings of the game's MoveType. MoveType itself is not part of
    this model; only its four moving values and the pairing of opposite
    headings that getOppositeMoveType is assumed to implement are. */
module Moves {

  /** A grid coordinate. x grows to the right and y grows downwards, so
      moving UP decreases y. */
  datatype Point = Point(x: int, y: int)

  /** The moving move types. A null MoveType is written Option.None where
      getMovedCoordinate and getDirection allow one. */
  datatype Heading = Up | Down | Left | Right

  predicate IsVertical(h: Heading) {
    h == Up || h == Down
  }

  /** MoveType.getOppositeMoveType, assumed to pair UP with DOWN and LEFT
      with RIGHT. */
  function Opposite(h: Heading): (r: Heading)
    ensures r != h
    ensures IsVertical(r) == IsVertical(h)
  {
    match h
    case Up => Down
    case Down => Up
    case Left => Right
    case Right => Left
  }

  /** The pairing is symmetric: the opposite of the opposite is the heading itself. */
  lemma OppositeInvolutive(h: Heading)
    ensures Opposite(Opposite(h)) == h
  {
  }

  function Abs(n: int): nat {
    if n < 0 then -n else n
  }

  /** Manhattan distance between two coordinates. */
  function Distance(p: Point, q: Point): nat {
    Abs(q.x - p.x) + Abs(q.y - p.y)
  }
}
