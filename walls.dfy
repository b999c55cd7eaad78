/** The wall rule: which edges of the grid a robot (or a beam) may cross.
    A cell's wall tile blocks one or two of its own sides; moving from one
    cell to its neighbour is blocked by a wall on either side of the shared
    edge. */
module Walls {
  import opened Wrappers
  import opened Geometry
  import opened TileIds

  /** The wall layer: the tile id of every cell that holds a tile. A cell
      without a key is empty, as is every cell off the map (the layer
      answers `null` there). */
  type WallLayer = map<Pos, int>

  /** The layer's cell at `p`, `None` for an empty or off-map cell. */
  function CellAt(walls: WallLayer, p: Pos): (c: Option<int>)
    ensures c.Some? <==> p in walls
    ensures c.Some? ==> c.value == walls[p]
  {
    if p in walls then Some(walls[p]) else None
  }

  // The wall classifiers compare against the ids of the wall tiles; lemma
  // `WallIds` ties each number to its `TileID` constant.

  /** WEST_WALL (30), NORTHWEST_WALL (24), SOUTHWEST_WALL (32) or WEST_LASER_WALL (38). */
  predicate HasWestWall(cell: Option<int>) {
    cell.Some? && cell.value in {30, 24, 32, 38}
  }

  /** EAST_WALL (23), NORTHEAST_WALL (16), SOUTHEAST_WALL (8) or EAST_LASER_WALL (46). */
  predicate HasEastWall(cell: Option<int>) {
    cell.Some? && cell.value in {23, 16, 8, 46}
  }

  /** SOUTH_WALL (29), SOUTHWEST_WALL (32), SOUTHEAST_WALL (8) or SOUTH_LASER_WALL (37). */
  predicate HasSouthWall(cell: Option<int>) {
    cell.Some? && cell.value in {29, 32, 8, 37}
  }

  /** NORTH_WALL (31), NORTHWEST_WALL (24), NORTHEAST_WALL (16) or NORTH_LASER_WALL (45). */
  predicate HasNorthWall(cell: Option<int>) {
    cell.Some? && cell.value in {31, 24, 16, 45}
  }

  /** `canGo`: no wall on `p`'s own side `d`, and none on the facing side of
      the neighbour in `d`. */
  predicate CanGo(walls: WallLayer, p: Pos, d: Direction) {
    var cell := CellAt(walls, p);
    match d
    case North => !(HasNorthWall(cell) || HasSouthWall(CellAt(walls, Pos(p.x, p.y + 1))))
    case South => !(HasSouthWall(cell) || HasNorthWall(CellAt(walls, Pos(p.x, p.y - 1))))
    case East => !(HasEastWall(cell) || HasWestWall(CellAt(walls, Pos(p.x + 1, p.y))))
    case West => !(HasWestWall(cell) || HasEastWall(CellAt(walls, Pos(p.x - 1, p.y))))
  }

  /** The side-`d` classifier. */
  predicate HasWall(cell: Option<int>, d: Direction) {
    match d
    case North => HasNorthWall(cell)
    case South => HasSouthWall(cell)
    case East => HasEastWall(cell)
    case West => HasWestWall(cell)
  }

  /** Each classifier holds for exactly the four wall tiles on its side:
      the plain wall, the two corners and the laser wall; an empty cell has
      no wall. */
  lemma WallIds(cell: Option<int>)
    ensures HasNorthWall(cell) <==> cell == Some(Id(NORTH_WALL)) || cell == Some(Id(NORTHWEST_WALL)) ||
                                    cell == Some(Id(NORTHEAST_WALL)) || cell == Some(Id(NORTH_LASER_WALL))
    ensures HasSouthWall(cell) <==> cell == Some(Id(SOUTH_WALL)) || cell == Some(Id(SOUTHWEST_WALL)) ||
                                    cell == Some(Id(SOUTHEAST_WALL)) || cell == Some(Id(SOUTH_LASER_WALL))
    ensures HasEastWall(cell) <==> cell == Some(Id(EAST_WALL)) || cell == Some(Id(NORTHEAST_WALL)) ||
                                   cell == Some(Id(SOUTHEAST_WALL)) || cell == Some(Id(EAST_LASER_WALL))
    ensures HasWestWall(cell) <==> cell == Some(Id(WEST_WALL)) || cell == Some(Id(NORTHWEST_WALL)) ||
                                   cell == Some(Id(SOUTHWEST_WALL)) || cell == Some(Id(WEST_LASER_WALL))
  {
    NorthWallIds();
    SouthWallIds();
    EastWallIds();
    WestWallIds();
  }

  /** No wall tile blocks two opposite sides of its cell. */
  lemma NoOppositeWalls(cell: Option<int>)
    ensures !(HasNorthWall(cell) && HasSouthWall(cell))
    ensures !(HasEastWall(cell) && HasWestWall(cell))
  {
  }

  /** `canGo` holds exactly when neither side of the edge crossed has a wall. */
  lemma CanGoSpec(walls: WallLayer, p: Pos, d: Direction)
    ensures CanGo(walls, p, d) <==>
            !HasWall(CellAt(walls, p), d) && !HasWall(CellAt(walls, Neighbour(p, d)), d.TurnAround())
  {
  }

  /** Walls block both ways: an edge can be crossed forwards exactly when it
      can be crossed back. */
  lemma CanGoSymmetric(walls: WallLayer, p: Pos, d: Direction)
    ensures CanGo(walls, p, d) == CanGo(walls, Neighbour(p, d), d.TurnAround())
  {
    var q := Neighbour(p, d);
    NeighbourThenBack(p, d);
    CanGoSpec(walls, p, d);
    CanGoSpec(walls, q, d.TurnAround());
    TurnsCompose(d);
  }

  /** A wall on some other side of the cell a robot stands on does not stop
      it; only the two sides of the edge it crosses matter. */
  lemma OtherWallsIgnored(walls: WallLayer, p: Pos, d: Direction, v: int)
    requires p !in walls && Neighbour(p, d) !in walls
    requires !HasWall(Some(v), d)
    ensures CanGo(walls[p := v], p, d)
  {
    CanGoSpec(walls[p := v], p, d);
  }
}
