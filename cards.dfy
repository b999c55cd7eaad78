/** Program cards: the instruction a robot runs from one register. The card
    class itself is not part of this model; the fields below are the ones
    the game and the message codec read. */
module Cards {
  import opened Geometry

  /** A card's priority, the number of steps it moves, the rotation it makes
      (`NoRotate` for a move card) and its display name. */
  datatype ProgramCard = ProgramCard(priority: int, distance: int, rotate: Rotate, name: string)
}
