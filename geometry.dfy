/** Grid positions and compass directions.

    The game stores positions as float vectors that always hold whole numbers,
    so a position here is a pair of integers (origin bottom-left, y grows to the
    north). `Direction` and `Rotate` stand in for the game's enums of the same
    names, which are not part of this model; their turns follow the compass. */
module Geometry {

  datatype Direction = North | South | East | West {

    /** Quarter turn clockwise. */
    function TurnRight(): Direction {
      match this
      case North => East
      case East => South
      case South => West
      case West => North
    }

    /** Quarter turn counter-clockwise. */
    function TurnLeft(): Direction {
      match this
      case North => West
      case West => South
      case South => East
      case East => North
    }

    /** Half turn. */
    function TurnAround(): Direction {
      match this
      case North => South
      case South => North
      case East => West
      case West => East
    }
  }

  /** The rotation a program card asks for (`NONE` means "move"). */
  datatype Rotate = NoRotate | Left | Right | UTurn

  /** The facing after turning `d` by `r`. */
  function Turn(d: Direction, r: Rotate): Direction {
    match r
    case NoRotate => d
    case Left => d.TurnLeft()
    case Right => d.TurnRight()
    case UTurn => d.TurnAround()
  }

  datatype Pos = Pos(x: int, y: int)

  /** How far `p` lies along direction `d` (the coordinate that a step in `d` increases). */
  function Progress(p: Pos, d: Direction): int {
    match d
    case North => p.y
    case South => -p.y
    case East => p.x
    case West => -p.x
  }

  /** The coordinate that a step in `d` leaves alone. */
  function Lateral(p: Pos, d: Direction): int {
    match d
    case North => p.x
    case South => p.x
    case East => p.y
    case West => p.y
  }

  /** The cell one step from `p` in direction `d` (getNeighbourPosition): a new
      value, so the argument is never changed. */
  function Neighbour(p: Pos, d: Direction): (q: Pos)
    ensures Progress(q, d) == Progress(p, d) + 1
    ensures Lateral(q, d) == Lateral(p, d)
  {
    match d
    case North => Pos(p.x, p.y + 1)
    case South => Pos(p.x, p.y - 1)
    case East => Pos(p.x + 1, p.y)
    case West => Pos(p.x - 1, p.y)
  }

  /** The cell `n` steps from `p` in direction `d`. */
  function Shift(p: Pos, d: Direction, n: nat): (q: Pos)
    ensures Progress(q, d) == Progress(p, d) + n
    ensures Lateral(q, d) == Lateral(p, d)
  {
    if n == 0 then p else Neighbour(Shift(p, d, n - 1), d)
  }

  /** Position and direction determine a cell uniquely. */
  lemma PositionFromCoordinates(p: Pos, q: Pos, d: Direction)
    requires Progress(p, d) == Progress(q, d) && Lateral(p, d) == Lateral(q, d)
    ensures p == q
  {
  }

  /** A step forward followed by a step back returns to the start. */
  lemma NeighbourThenBack(p: Pos, d: Direction)
    ensures Neighbour(Neighbour(p, d), d.TurnAround()) == p
  {
  }

  /** Four right turns, four left turns and two half turns are the identity,
      and a left turn undoes a right turn. */
  lemma TurnsCompose(d: Direction)
    ensures d.TurnRight().TurnRight().TurnRight().TurnRight() == d
    ensures d.TurnRight().TurnLeft() == d && d.TurnLeft().TurnRight() == d
    ensures d.TurnRight().TurnRight() == d.TurnAround()
    ensures d.TurnAround().TurnAround() == d
  {
  }

  /** Shifting by one more step is one more neighbour step from the start side. */
  lemma {:induction false} ShiftFront(p: Pos, d: Direction, n: nat)
    ensures Shift(Neighbour(p, d), d, n) == Shift(p, d, n + 1)
  {
    var a := Shift(Neighbour(p, d), d, n);
    var b := Shift(p, d, n + 1);
    PositionFromCoordinates(a, b, d);
  }

  /** `ShiftFront` for every distance at once. */
  lemma ShiftFrontAll(p: Pos, d: Direction)
    ensures forall n: nat :: Shift(Neighbour(p, d), d, n) == Shift(p, d, n + 1)
  {
    forall n: nat {
      ShiftFront(p, d, n);
    }
  }
}
