/** The tile-id table: every tile, wall, robot and belt kind of the map, with
    the number the map file uses for it, and the robot-tile lookup
    `getRobotId`. */
module TileIds {
  import opened Wrappers
  import opened Text
  import opened Geometry

  /** The constants, in declaration order. */
  datatype TileID =
      PLAYER_1_SOUTH
    | PLAYER_1_NORTH
    | PLAYER_1_EAST
    | PLAYER_1_WEST
    | PLAYER_2_SOUTH
    | PLAYER_2_NORTH
    | PLAYER_2_EAST
    | PLAYER_2_WEST
    | PLAYER_3_SOUTH
    | PLAYER_3_NORTH
    | PLAYER_3_EAST
    | PLAYER_3_WEST
    | PLAYER_4_SOUTH
    | PLAYER_4_NORTH
    | PLAYER_4_EAST
    | PLAYER_4_WEST
    | PLAYER_5_SOUTH
    | PLAYER_5_NORTH
    | PLAYER_5_EAST
    | PLAYER_5_WEST
    | PLAYER_6_SOUTH
    | PLAYER_6_NORTH
    | PLAYER_6_EAST
    | PLAYER_6_WEST
    | PLAYER_7_SOUTH
    | PLAYER_7_NORTH
    | PLAYER_7_EAST
    | PLAYER_7_WEST
    | PLAYER_8_SOUTH
    | PLAYER_8_NORTH
    | PLAYER_8_EAST
    | PLAYER_8_WEST
    | PLAYER_SOUTH
    | PLAYER_NORTH
    | PLAYER_EAST
    | PLAYER_WEST
    | START_POS1
    | START_POS2
    | START_POS3
    | START_POS4
    | START_POS5
    | START_POS6
    | START_POS7
    | START_POS8
    | EAST_WALL
    | SOUTH_WALL
    | WEST_WALL
    | NORTH_WALL
    | EAST_LASER_WALL
    | SOUTH_LASER_WALL
    | WEST_LASER_WALL
    | NORTH_LASER_WALL
    | SOUTHEAST_WALL
    | NORTHEAST_WALL
    | NORTHWEST_WALL
    | SOUTHWEST_WALL
    | VERTICAL_LASER
    | HORIZONTAL_LASER
    | CROSSED_LASER
    | NORMAL_HOLE
    | NORMAL_HOLE2
    | NORTHWEST_HOLE
    | NORTH_HOLE
    | NORTHEAST_HOLE
    | EAST_HOLE
    | NORTH_EAST_SOUTH_HOLE
    | WEST_EAST_SOUTH_HOLE
    | SOUTHWEST_HOLE
    | SOUTH_HOLE
    | SOUTHEAST_HOLE
    | WEST_HOLE
    | NORTH_WEST_SOUTH_HOLE
    | NORTH_WEST_EAST_HOLE
    | ROTATE_PAD_LEFT
    | ROTATE_PAD_RIGHT
    | WRENCH
    | DOUBLE_WRENCH
    | FLAG_1
    | FLAG_2
    | FLAG_3
    | FLAG_4
    | EAST_TO_SOUTH_BELT
    | NORTH_TO_EAST_BELT
    | WEST_TO_NORTH_BELT
    | SOUTH_TO_WEST_BELT
    | EAST_TO_NORTH_BELT
    | NORTH_TO_WEST_BELT
    | WEST_TO_SOUTH_BELT
    | SOUTH_TO_EAST_BELT
    | EAST_TO_WEST_BELT
    | NORTH_TO_SOUTH_BELT
    | WEST_TO_EAST_BELT
    | SOUTH_TO_NORTH_BELT
    | WESTSOUTH_TO_NORTH_BELT
    | EASTSOUTH_TO_NORTH_BELT
    | WESTEAST_TO_NORTH_BELT
    | WESTNORTH_TO_SOUTH_BELT
    | EASTNORTH_TO_SOUTH_BELT
    | WESTEAST_TO_SOUTH_BELT
    | WESTSOUTH_TO_EAST_BELT
    | WESTNORTH_TO_EAST_BELT
    | NORTHSOUTH_TO_EAST_BELT
    | EASTSOUTH_TO_WEST_BELT
    | EASTNORTH_TO_WEST_BELT
    | NORTHSOUTH_TO_WEST_BELT
    | EAST_TO_SOUTH_EXPRESS_BELT
    | NORTH_TO_EAST_EXPRESS_BELT
    | WEST_TO_NORTH_EXPRESS_BELT
    | SOUTH_TO_WEST_EXPRESS_BELT
    | EAST_TO_NORTH_EXPRESS_BELT
    | NORTH_TO_WEST_EXPRESS_BELT
    | WEST_TO_SOUTH_EXPRESS_BELT
    | SOUTH_TO_EAST_EXPRESS_BELT
    | EAST_TO_WEST_EXPRESS_BELT
    | NORTH_TO_SOUTH_EXPRESS_BELT
    | WEST_TO_EAST_EXPRESS_BELT
    | SOUTH_TO_NORTH_EXPRESS_BELT
    | WESTSOUTH_TO_NORTH_EXPRESS_BELT
    | EASTSOUTH_TO_NORTH_EXPRESS_BELT
    | WESTEAST_TO_NORTH_EXPRESS_BELT
    | WESTNORTH_TO_SOUTH_EXPRESS_BELT
    | EASTNORTH_TO_SOUTH_EXPRESS_BELT
    | WESTEAST_TO_SOUTH_EXPRESS_BELT
    | WESTSOUTH_TO_EAST_EXPRESS_BELT
    | WESTNORTH_TO_EAST_EXPRESS_BELT
    | NORTHSOUTH_TO_EAST_EXPRESS_BELT
    | EASTSOUTH_TO_WEST_EXPRESS_BELT
    | EASTNORTH_TO_WEST_EXPRESS_BELT
    | NORTHSOUTH_TO_WEST_EXPRESS_BELT

  /** `getId`: the number the map editor gives the tile. */
  function Id(t: TileID): int {
    match t
    case PLAYER_1_SOUTH => 137
    case PLAYER_1_NORTH => 138
    case PLAYER_1_EAST => 139
    case PLAYER_1_WEST => 140
    case PLAYER_2_SOUTH => 141
    case PLAYER_2_NORTH => 142
    case PLAYER_2_EAST => 143
    case PLAYER_2_WEST => 144
    case PLAYER_3_SOUTH => 145
    case PLAYER_3_NORTH => 146
    case PLAYER_3_EAST => 147
    case PLAYER_3_WEST => 148
    case PLAYER_4_SOUTH => 149
    case PLAYER_4_NORTH => 150
    case PLAYER_4_EAST => 151
    case PLAYER_4_WEST => 152
    case PLAYER_5_SOUTH => 153
    case PLAYER_5_NORTH => 154
    case PLAYER_5_EAST => 155
    case PLAYER_5_WEST => 156
    case PLAYER_6_SOUTH => 157
    case PLAYER_6_NORTH => 158
    case PLAYER_6_EAST => 159
    case PLAYER_6_WEST => 160
    case PLAYER_7_SOUTH => 161
    case PLAYER_7_NORTH => 162
    case PLAYER_7_EAST => 163
    case PLAYER_7_WEST => 164
    case PLAYER_8_SOUTH => 165
    case PLAYER_8_NORTH => 166
    case PLAYER_8_EAST => 167
    case PLAYER_8_WEST => 168
    case PLAYER_SOUTH => 169
    case PLAYER_NORTH => 170
    case PLAYER_EAST => 171
    case PLAYER_WEST => 172
    case START_POS1 => 121
    case START_POS2 => 122
    case START_POS3 => 123
    case START_POS4 => 124
    case START_POS5 => 129
    case START_POS6 => 130
    case START_POS7 => 131
    case START_POS8 => 132
    case EAST_WALL => 23
    case SOUTH_WALL => 29
    case WEST_WALL => 30
    case NORTH_WALL => 31
    case EAST_LASER_WALL => 46
    case SOUTH_LASER_WALL => 37
    case WEST_LASER_WALL => 38
    case NORTH_LASER_WALL => 45
    case SOUTHEAST_WALL => 8
    case NORTHEAST_WALL => 16
    case NORTHWEST_WALL => 24
    case SOUTHWEST_WALL => 32
    case VERTICAL_LASER => 47
    case HORIZONTAL_LASER => 39
    case CROSSED_LASER => 40
    case NORMAL_HOLE => 6
    case NORMAL_HOLE2 => 91
    case NORTHWEST_HOLE => 105
    case NORTH_HOLE => 106
    case NORTHEAST_HOLE => 107
    case EAST_HOLE => 108
    case NORTH_EAST_SOUTH_HOLE => 109
    case WEST_EAST_SOUTH_HOLE => 110
    case SOUTHWEST_HOLE => 113
    case SOUTH_HOLE => 114
    case SOUTHEAST_HOLE => 115
    case WEST_HOLE => 116
    case NORTH_WEST_SOUTH_HOLE => 117
    case NORTH_WEST_EAST_HOLE => 118
    case ROTATE_PAD_LEFT => 53
    case ROTATE_PAD_RIGHT => 54
    case WRENCH => 15
    case DOUBLE_WRENCH => 7
    case FLAG_1 => 55
    case FLAG_2 => 63
    case FLAG_3 => 71
    case FLAG_4 => 79
    case EAST_TO_SOUTH_BELT => 33
    case NORTH_TO_EAST_BELT => 41
    case WEST_TO_NORTH_BELT => 42
    case SOUTH_TO_WEST_BELT => 34
    case EAST_TO_NORTH_BELT => 43
    case NORTH_TO_WEST_BELT => 44
    case WEST_TO_SOUTH_BELT => 36
    case SOUTH_TO_EAST_BELT => 35
    case EAST_TO_WEST_BELT => 51
    case NORTH_TO_SOUTH_BELT => 50
    case WEST_TO_EAST_BELT => 52
    case SOUTH_TO_NORTH_BELT => 49
    case WESTSOUTH_TO_NORTH_BELT => 57
    case EASTSOUTH_TO_NORTH_BELT => 65
    case WESTEAST_TO_NORTH_BELT => 69
    case WESTNORTH_TO_SOUTH_BELT => 67
    case EASTNORTH_TO_SOUTH_BELT => 59
    case WESTEAST_TO_SOUTH_BELT => 62
    case WESTSOUTH_TO_EAST_BELT => 66
    case WESTNORTH_TO_EAST_BELT => 58
    case NORTHSOUTH_TO_EAST_BELT => 61
    case EASTSOUTH_TO_WEST_BELT => 60
    case EASTNORTH_TO_WEST_BELT => 68
    case NORTHSOUTH_TO_WEST_BELT => 70
    case EAST_TO_SOUTH_EXPRESS_BELT => 17
    case NORTH_TO_EAST_EXPRESS_BELT => 25
    case WEST_TO_NORTH_EXPRESS_BELT => 26
    case SOUTH_TO_WEST_EXPRESS_BELT => 18
    case EAST_TO_NORTH_EXPRESS_BELT => 27
    case NORTH_TO_WEST_EXPRESS_BELT => 28
    case WEST_TO_SOUTH_EXPRESS_BELT => 20
    case SOUTH_TO_EAST_EXPRESS_BELT => 19
    case EAST_TO_WEST_EXPRESS_BELT => 22
    case NORTH_TO_SOUTH_EXPRESS_BELT => 21
    case WEST_TO_EAST_EXPRESS_BELT => 14
    case SOUTH_TO_NORTH_EXPRESS_BELT => 13
    case WESTSOUTH_TO_NORTH_EXPRESS_BELT => 73
    case EASTSOUTH_TO_NORTH_EXPRESS_BELT => 77
    case WESTEAST_TO_NORTH_EXPRESS_BELT => 84
    case WESTNORTH_TO_SOUTH_EXPRESS_BELT => 86
    case EASTNORTH_TO_SOUTH_EXPRESS_BELT => 75
    case WESTEAST_TO_SOUTH_EXPRESS_BELT => 82
    case WESTSOUTH_TO_EAST_EXPRESS_BELT => 78
    case WESTNORTH_TO_EAST_EXPRESS_BELT => 74
    case NORTHSOUTH_TO_EAST_EXPRESS_BELT => 81
    case EASTSOUTH_TO_WEST_EXPRESS_BELT => 76
    case EASTNORTH_TO_WEST_EXPRESS_BELT => 85
    case NORTHSOUTH_TO_WEST_EXPRESS_BELT => 83
  }

  /** `toString()`: the constant's name. */
  function Name(t: TileID): string {
    match t
    case PLAYER_1_SOUTH => RobotName("1", "SOUTH")
    case PLAYER_1_NORTH => RobotName("1", "NORTH")
    case PLAYER_1_EAST => RobotName("1", "EAST")
    case PLAYER_1_WEST => RobotName("1", "WEST")
    case PLAYER_2_SOUTH => RobotName("2", "SOUTH")
    case PLAYER_2_NORTH => RobotName("2", "NORTH")
    case PLAYER_2_EAST => RobotName("2", "EAST")
    case PLAYER_2_WEST => RobotName("2", "WEST")
    case PLAYER_3_SOUTH => RobotName("3", "SOUTH")
    case PLAYER_3_NORTH => RobotName("3", "NORTH")
    case PLAYER_3_EAST => RobotName("3", "EAST")
    case PLAYER_3_WEST => RobotName("3", "WEST")
    case PLAYER_4_SOUTH => RobotName("4", "SOUTH")
    case PLAYER_4_NORTH => RobotName("4", "NORTH")
    case PLAYER_4_EAST => RobotName("4", "EAST")
    case PLAYER_4_WEST => RobotName("4", "WEST")
    case PLAYER_5_SOUTH => RobotName("5", "SOUTH")
    case PLAYER_5_NORTH => RobotName("5", "NORTH")
    case PLAYER_5_EAST => RobotName("5", "EAST")
    case PLAYER_5_WEST => RobotName("5", "WEST")
    case PLAYER_6_SOUTH => RobotName("6", "SOUTH")
    case PLAYER_6_NORTH => RobotName("6", "NORTH")
    case PLAYER_6_EAST => RobotName("6", "EAST")
    case PLAYER_6_WEST => RobotName("6", "WEST")
    case PLAYER_7_SOUTH => RobotName("7", "SOUTH")
    case PLAYER_7_NORTH => RobotName("7", "NORTH")
    case PLAYER_7_EAST => RobotName("7", "EAST")
    case PLAYER_7_WEST => RobotName("7", "WEST")
    case PLAYER_8_SOUTH => RobotName("8", "SOUTH")
    case PLAYER_8_NORTH => RobotName("8", "NORTH")
    case PLAYER_8_EAST => RobotName("8", "EAST")
    case PLAYER_8_WEST => RobotName("8", "WEST")
    case PLAYER_SOUTH => "PLAYER_SOUTH"
    case PLAYER_NORTH => "PLAYER_NORTH"
    case PLAYER_EAST => "PLAYER_EAST"
    case PLAYER_WEST => "PLAYER_WEST"
    case START_POS1 => "START_POS1"
    case START_POS2 => "START_POS2"
    case START_POS3 => "START_POS3"
    case START_POS4 => "START_POS4"
    case START_POS5 => "START_POS5"
    case START_POS6 => "START_POS6"
    case START_POS7 => "START_POS7"
    case START_POS8 => "START_POS8"
    case EAST_WALL => "EAST_WALL"
    case SOUTH_WALL => "SOUTH_WALL"
    case WEST_WALL => "WEST_WALL"
    case NORTH_WALL => "NORTH_WALL"
    case EAST_LASER_WALL => "EAST_LASER_WALL"
    case SOUTH_LASER_WALL => "SOUTH_LASER_WALL"
    case WEST_LASER_WALL => "WEST_LASER_WALL"
    case NORTH_LASER_WALL => "NORTH_LASER_WALL"
    case SOUTHEAST_WALL => "SOUTHEAST_WALL"
    case NORTHEAST_WALL => "NORTHEAST_WALL"
    case NORTHWEST_WALL => "NORTHWEST_WALL"
    case SOUTHWEST_WALL => "SOUTHWEST_WALL"
    case VERTICAL_LASER => "VERTICAL_LASER"
    case HORIZONTAL_LASER => "HORIZONTAL_LASER"
    case CROSSED_LASER => "CROSSED_LASER"
    case NORMAL_HOLE => "NORMAL_HOLE"
    case NORMAL_HOLE2 => "NORMAL_HOLE2"
    case NORTHWEST_HOLE => "NORTHWEST_HOLE"
    case NORTH_HOLE => "NORTH_HOLE"
    case NORTHEAST_HOLE => "NORTHEAST_HOLE"
    case EAST_HOLE => "EAST_HOLE"
    case NORTH_EAST_SOUTH_HOLE => "NORTH_EAST_SOUTH_HOLE"
    case WEST_EAST_SOUTH_HOLE => "WEST_EAST_SOUTH_HOLE"
    case SOUTHWEST_HOLE => "SOUTHWEST_HOLE"
    case SOUTH_HOLE => "SOUTH_HOLE"
    case SOUTHEAST_HOLE => "SOUTHEAST_HOLE"
    case WEST_HOLE => "WEST_HOLE"
    case NORTH_WEST_SOUTH_HOLE => "NORTH_WEST_SOUTH_HOLE"
    case NORTH_WEST_EAST_HOLE => "NORTH_WEST_EAST_HOLE"
    case ROTATE_PAD_LEFT => "ROTATE_PAD_LEFT"
    case ROTATE_PAD_RIGHT => "ROTATE_PAD_RIGHT"
    case WRENCH => "WRENCH"
    case DOUBLE_WRENCH => "DOUBLE_WRENCH"
    case FLAG_1 => "FLAG_1"
    case FLAG_2 => "FLAG_2"
    case FLAG_3 => "FLAG_3"
    case FLAG_4 => "FLAG_4"
    case EAST_TO_SOUTH_BELT => "EAST_TO_SOUTH_BELT"
    case NORTH_TO_EAST_BELT => "NORTH_TO_EAST_BELT"
    case WEST_TO_NORTH_BELT => "WEST_TO_NORTH_BELT"
    case SOUTH_TO_WEST_BELT => "SOUTH_TO_WEST_BELT"
    case EAST_TO_NORTH_BELT => "EAST_TO_NORTH_BELT"
    case NORTH_TO_WEST_BELT => "NORTH_TO_WEST_BELT"
    case WEST_TO_SOUTH_BELT => "WEST_TO_SOUTH_BELT"
    case SOUTH_TO_EAST_BELT => "SOUTH_TO_EAST_BELT"
    case EAST_TO_WEST_BELT => "EAST_TO_WEST_BELT"
    case NORTH_TO_SOUTH_BELT => "NORTH_TO_SOUTH_BELT"
    case WEST_TO_EAST_BELT => "WEST_TO_EAST_BELT"
    case SOUTH_TO_NORTH_BELT => "SOUTH_TO_NORTH_BELT"
    case WESTSOUTH_TO_NORTH_BELT => "WESTSOUTH_TO_NORTH_BELT"
    case EASTSOUTH_TO_NORTH_BELT => "EASTSOUTH_TO_NORTH_BELT"
    case WESTEAST_TO_NORTH_BELT => "WESTEAST_TO_NORTH_BELT"
    case WESTNORTH_TO_SOUTH_BELT => "WESTNORTH_TO_SOUTH_BELT"
    case EASTNORTH_TO_SOUTH_BELT => "EASTNORTH_TO_SOUTH_BELT"
    case WESTEAST_TO_SOUTH_BELT => "WESTEAST_TO_SOUTH_BELT"
    case WESTSOUTH_TO_EAST_BELT => "WESTSOUTH_TO_EAST_BELT"
    case WESTNORTH_TO_EAST_BELT => "WESTNORTH_TO_EAST_BELT"
    case NORTHSOUTH_TO_EAST_BELT => "NORTHSOUTH_TO_EAST_BELT"
    case EASTSOUTH_TO_WEST_BELT => "EASTSOUTH_TO_WEST_BELT"
    case EASTNORTH_TO_WEST_BELT => "EASTNORTH_TO_WEST_BELT"
    case NORTHSOUTH_TO_WEST_BELT => "NORTHSOUTH_TO_WEST_BELT"
    case EAST_TO_SOUTH_EXPRESS_BELT => "EAST_TO_SOUTH_EXPRESS_BELT"
    case NORTH_TO_EAST_EXPRESS_BELT => "NORTH_TO_EAST_EXPRESS_BELT"
    case WEST_TO_NORTH_EXPRESS_BELT => "WEST_TO_NORTH_EXPRESS_BELT"
    case SOUTH_TO_WEST_EXPRESS_BELT => "SOUTH_TO_WEST_EXPRESS_BELT"
    case EAST_TO_NORTH_EXPRESS_BELT => "EAST_TO_NORTH_EXPRESS_BELT"
    case NORTH_TO_WEST_EXPRESS_BELT => "NORTH_TO_WEST_EXPRESS_BELT"
    case WEST_TO_SOUTH_EXPRESS_BELT => "WEST_TO_SOUTH_EXPRESS_BELT"
    case SOUTH_TO_EAST_EXPRESS_BELT => "SOUTH_TO_EAST_EXPRESS_BELT"
    case EAST_TO_WEST_EXPRESS_BELT => "EAST_TO_WEST_EXPRESS_BELT"
    case NORTH_TO_SOUTH_EXPRESS_BELT => "NORTH_TO_SOUTH_EXPRESS_BELT"
    case WEST_TO_EAST_EXPRESS_BELT => "WEST_TO_EAST_EXPRESS_BELT"
    case SOUTH_TO_NORTH_EXPRESS_BELT => "SOUTH_TO_NORTH_EXPRESS_BELT"
    case WESTSOUTH_TO_NORTH_EXPRESS_BELT => "WESTSOUTH_TO_NORTH_EXPRESS_BELT"
    case EASTSOUTH_TO_NORTH_EXPRESS_BELT => "EASTSOUTH_TO_NORTH_EXPRESS_BELT"
    case WESTEAST_TO_NORTH_EXPRESS_BELT => "WESTEAST_TO_NORTH_EXPRESS_BELT"
    case WESTNORTH_TO_SOUTH_EXPRESS_BELT => "WESTNORTH_TO_SOUTH_EXPRESS_BELT"
    case EASTNORTH_TO_SOUTH_EXPRESS_BELT => "EASTNORTH_TO_SOUTH_EXPRESS_BELT"
    case WESTEAST_TO_SOUTH_EXPRESS_BELT => "WESTEAST_TO_SOUTH_EXPRESS_BELT"
    case WESTSOUTH_TO_EAST_EXPRESS_BELT => "WESTSOUTH_TO_EAST_EXPRESS_BELT"
    case WESTNORTH_TO_EAST_EXPRESS_BELT => "WESTNORTH_TO_EAST_EXPRESS_BELT"
    case NORTHSOUTH_TO_EAST_EXPRESS_BELT => "NORTHSOUTH_TO_EAST_EXPRESS_BELT"
    case EASTSOUTH_TO_WEST_EXPRESS_BELT => "EASTSOUTH_TO_WEST_EXPRESS_BELT"
    case EASTNORTH_TO_WEST_EXPRESS_BELT => "EASTNORTH_TO_WEST_EXPRESS_BELT"
    case NORTHSOUTH_TO_WEST_EXPRESS_BELT => "NORTHSOUTH_TO_WEST_EXPRESS_BELT"
  }

  /** The first 36 constants in declaration order: the robot tiles of
      players 1 to 8 in blocks of four (south, north, east, west), then the
      four without a player number. */
  function RobotTileIndex(i: int): TileID {
    if 0 <= i < 32 then RobotTile(i / 4 + 1, SlotDirection(i % 4))
    else if i == 32 then PLAYER_SOUTH
    else if i == 33 then PLAYER_NORTH
    else if i == 34 then PLAYER_EAST
    else PLAYER_WEST
  }

  /** `values()`: every constant in declaration order; the first 36 are the robot tiles. */
  function RobotTiles(): (ts: seq<TileID>)
    ensures |ts| == 36
  {
    seq(36, i => RobotTileIndex(i))
  }
  const OtherTiles: seq<TileID> := [
    START_POS1,
    START_POS2,
    START_POS3,
    START_POS4,
    START_POS5,
    START_POS6,
    START_POS7,
    START_POS8,
    EAST_WALL,
    SOUTH_WALL,
    WEST_WALL,
    NORTH_WALL,
    EAST_LASER_WALL,
    SOUTH_LASER_WALL,
    WEST_LASER_WALL,
    NORTH_LASER_WALL,
    SOUTHEAST_WALL,
    NORTHEAST_WALL,
    NORTHWEST_WALL,
    SOUTHWEST_WALL,
    VERTICAL_LASER,
    HORIZONTAL_LASER,
    CROSSED_LASER,
    NORMAL_HOLE,
    NORMAL_HOLE2,
    NORTHWEST_HOLE,
    NORTH_HOLE,
    NORTHEAST_HOLE,
    EAST_HOLE,
    NORTH_EAST_SOUTH_HOLE,
    WEST_EAST_SOUTH_HOLE,
    SOUTHWEST_HOLE,
    SOUTH_HOLE,
    SOUTHEAST_HOLE,
    WEST_HOLE,
    NORTH_WEST_SOUTH_HOLE,
    NORTH_WEST_EAST_HOLE,
    ROTATE_PAD_LEFT,
    ROTATE_PAD_RIGHT,
    WRENCH,
    DOUBLE_WRENCH,
    FLAG_1,
    FLAG_2,
    FLAG_3,
    FLAG_4,
    EAST_TO_SOUTH_BELT,
    NORTH_TO_EAST_BELT,
    WEST_TO_NORTH_BELT,
    SOUTH_TO_WEST_BELT,
    EAST_TO_NORTH_BELT,
    NORTH_TO_WEST_BELT,
    WEST_TO_SOUTH_BELT,
    SOUTH_TO_EAST_BELT,
    EAST_TO_WEST_BELT,
    NORTH_TO_SOUTH_BELT,
    WEST_TO_EAST_BELT,
    SOUTH_TO_NORTH_BELT,
    WESTSOUTH_TO_NORTH_BELT,
    EASTSOUTH_TO_NORTH_BELT,
    WESTEAST_TO_NORTH_BELT,
    WESTNORTH_TO_SOUTH_BELT,
    EASTNORTH_TO_SOUTH_BELT,
    WESTEAST_TO_SOUTH_BELT,
    WESTSOUTH_TO_EAST_BELT,
    WESTNORTH_TO_EAST_BELT,
    NORTHSOUTH_TO_EAST_BELT,
    EASTSOUTH_TO_WEST_BELT,
    EASTNORTH_TO_WEST_BELT,
    NORTHSOUTH_TO_WEST_BELT,
    EAST_TO_SOUTH_EXPRESS_BELT,
    NORTH_TO_EAST_EXPRESS_BELT,
    WEST_TO_NORTH_EXPRESS_BELT,
    SOUTH_TO_WEST_EXPRESS_BELT,
    EAST_TO_NORTH_EXPRESS_BELT,
    NORTH_TO_WEST_EXPRESS_BELT,
    WEST_TO_SOUTH_EXPRESS_BELT,
    SOUTH_TO_EAST_EXPRESS_BELT,
    EAST_TO_WEST_EXPRESS_BELT,
    NORTH_TO_SOUTH_EXPRESS_BELT,
    WEST_TO_EAST_EXPRESS_BELT,
    SOUTH_TO_NORTH_EXPRESS_BELT,
    WESTSOUTH_TO_NORTH_EXPRESS_BELT,
    EASTSOUTH_TO_NORTH_EXPRESS_BELT,
    WESTEAST_TO_NORTH_EXPRESS_BELT,
    WESTNORTH_TO_SOUTH_EXPRESS_BELT,
    EASTNORTH_TO_SOUTH_EXPRESS_BELT,
    WESTEAST_TO_SOUTH_EXPRESS_BELT,
    WESTSOUTH_TO_EAST_EXPRESS_BELT,
    WESTNORTH_TO_EAST_EXPRESS_BELT,
    NORTHSOUTH_TO_EAST_EXPRESS_BELT,
    EASTSOUTH_TO_WEST_EXPRESS_BELT,
    EASTNORTH_TO_WEST_EXPRESS_BELT,
    NORTHSOUTH_TO_WEST_EXPRESS_BELT
  ]
  const Values: seq<TileID> := RobotTiles() + OtherTiles

  // The ids of the constants the board rules test for.

  lemma StartPosIds()
    ensures Id(START_POS1) == 121 && Id(START_POS2) == 122 && Id(START_POS3) == 123 && Id(START_POS4) == 124 && Id(START_POS5) == 129 && Id(START_POS6) == 130 && Id(START_POS7) == 131 && Id(START_POS8) == 132
  {
    StartPos1Id();
    StartPos2Id();
    StartPos3Id();
    StartPos4Id();
    StartPos5Id();
    StartPos6Id();
    StartPos7Id();
    StartPos8Id();
  }

  lemma LaserIds()
    ensures Id(VERTICAL_LASER) == 47 && Id(HORIZONTAL_LASER) == 39 && Id(CROSSED_LASER) == 40
  {
    VerticalLaserId();
    HorizontalLaserId();
    CrossedLaserId();
  }

  lemma NorthWallIds()
    ensures Id(NORTH_WALL) == 31 && Id(NORTHWEST_WALL) == 24 && Id(NORTHEAST_WALL) == 16 && Id(NORTH_LASER_WALL) == 45
  {
    NorthWallId();
    NorthwestWallId();
    NortheastWallId();
    NorthLaserWallId();
  }

  lemma SouthWallIds()
    ensures Id(SOUTH_WALL) == 29 && Id(SOUTHWEST_WALL) == 32 && Id(SOUTHEAST_WALL) == 8 && Id(SOUTH_LASER_WALL) == 37
  {
    SouthWallId();
    SouthwestWallId();
    SoutheastWallId();
    SouthLaserWallId();
  }

  lemma EastWallIds()
    ensures Id(EAST_WALL) == 23 && Id(NORTHEAST_WALL) == 16 && Id(SOUTHEAST_WALL) == 8 && Id(EAST_LASER_WALL) == 46
  {
    EastWallId();
    NortheastWallId();
    SoutheastWallId();
    EastLaserWallId();
  }

  lemma WestWallIds()
    ensures Id(WEST_WALL) == 30 && Id(NORTHWEST_WALL) == 24 && Id(SOUTHWEST_WALL) == 32 && Id(WEST_LASER_WALL) == 38
  {
    WestWallId();
    NorthwestWallId();
    SouthwestWallId();
    WestLaserWallId();
  }

  lemma StartPos1Id()
    ensures Id(START_POS1) == 121
  {
  }

  lemma StartPos2Id()
    ensures Id(START_POS2) == 122
  {
  }

  lemma StartPos3Id()
    ensures Id(START_POS3) == 123
  {
  }

  lemma StartPos4Id()
    ensures Id(START_POS4) == 124
  {
  }

  lemma StartPos5Id()
    ensures Id(START_POS5) == 129
  {
  }

  lemma StartPos6Id()
    ensures Id(START_POS6) == 130
  {
  }

  lemma StartPos7Id()
    ensures Id(START_POS7) == 131
  {
  }

  lemma StartPos8Id()
    ensures Id(START_POS8) == 132
  {
  }

  lemma VerticalLaserId()
    ensures Id(VERTICAL_LASER) == 47
  {
  }

  lemma HorizontalLaserId()
    ensures Id(HORIZONTAL_LASER) == 39
  {
  }

  lemma CrossedLaserId()
    ensures Id(CROSSED_LASER) == 40
  {
  }

  lemma NorthWallId()
    ensures Id(NORTH_WALL) == 31
  {
  }

  lemma NorthwestWallId()
    ensures Id(NORTHWEST_WALL) == 24
  {
  }

  lemma NortheastWallId()
    ensures Id(NORTHEAST_WALL) == 16
  {
  }

  lemma NorthLaserWallId()
    ensures Id(NORTH_LASER_WALL) == 45
  {
  }

  lemma SouthWallId()
    ensures Id(SOUTH_WALL) == 29
  {
  }

  lemma SouthwestWallId()
    ensures Id(SOUTHWEST_WALL) == 32
  {
  }

  lemma SoutheastWallId()
    ensures Id(SOUTHEAST_WALL) == 8
  {
  }

  lemma SouthLaserWallId()
    ensures Id(SOUTH_LASER_WALL) == 37
  {
  }

  lemma EastWallId()
    ensures Id(EAST_WALL) == 23
  {
  }

  lemma EastLaserWallId()
    ensures Id(EAST_LASER_WALL) == 46
  {
  }

  lemma WestWallId()
    ensures Id(WEST_WALL) == 30
  {
  }

  lemma WestLaserWallId()
    ensures Id(WEST_LASER_WALL) == 38
  {
  }

  /** The name of the robot tile `PLAYER_<number>_<facing>`. */
  function RobotName(number: string, facing: string): string {
    "PLAYER_" + number + "_" + facing
  }

  function FacingName(d: Direction): string {
    match d
    case South => "SOUTH"
    case North => "NORTH"
    case East => "EAST"
    case West => "WEST"
  }

  /** Place of a facing within each player's block of four robot tiles. */
  function Slot(d: Direction): (s: int)
    ensures 0 <= s < 4
  {
    match d
    case South => 0
    case North => 1
    case East => 2
    case West => 3
  }

  /** The facing at a place within a block: the inverse of `Slot`. */
  function SlotDirection(s: int): (d: Direction)
    requires 0 <= s < 4
    ensures Slot(d) == s
  {
    if s == 0 then South else if s == 1 then North else if s == 2 then East else West
  }

  /** One pass of `getRobotId`'s loop: records `t`'s id under the facing
      whose name, for player `number`, equals `t`'s name. */
  function Record(ids: map<Direction, int>, name: string, id: int, number: string): map<Direction, int> {
    if name == RobotName(number, "SOUTH") then ids[South := id]
    else if name == RobotName(number, "NORTH") then ids[North := id]
    else if name == RobotName(number, "EAST") then ids[East := id]
    else if name == RobotName(number, "WEST") then ids[West := id]
    else ids
  }

  /** The map `getRobotId(n)` holds after its loop has looked at the first `k` constants. */
  function ScanRobotIds(n: int, k: nat): map<Direction, int>
    requires k <= |RobotTiles()|
  {
    if k == 0 then map[] else Record(ScanRobotIds(n, k - 1), Name(RobotTiles()[k - 1]), Id(RobotTiles()[k - 1]), IntToString(n))
  }

  /** What `getRobotId(n)` is meant to give: player `n`'s four robot tiles. */
  function ExpectedRobotIds(n: int): map<Direction, int> {
    if 1 <= n <= 8 then map[South := 133 + 4 * n, North := 134 + 4 * n, East := 135 + 4 * n, West := 136 + 4 * n]
    else map[]
  }

  /** The first 36 constants are the robot tiles. */
  lemma RobotTilesFirst()
    ensures |RobotTiles()| == 36 && |Values| >= 36
    ensures forall i :: 0 <= i < 36 ==> Values[i] == RobotTiles()[i]
  {
  }

  /** `getRobotId(playerNumber)`: scans the first 36 constants for the names
      `PLAYER_<playerNumber>_<facing>` and records their ids by facing. */
  method GetRobotId(playerNumber: int) returns (ids: map<Direction, int>)
    ensures ids == ExpectedRobotIds(playerNumber)
    ensures 1 <= playerNumber <= 8 ==> ids.Keys == {South, North, East, West}
    ensures !(1 <= playerNumber <= 8) ==> ids == map[]
  {
    ids := map[];
    var number := IntToString(playerNumber);
    RobotTilesFirst();
    var i := 0;
    while i < 36
      invariant 0 <= i <= 36
      invariant ids == ScanRobotIds(playerNumber, i)
    {
      var t := Values[i];
      ids := Record(ids, Name(t), Id(t), number);
      i := i + 1;
    }
    RobotIdsTable(playerNumber);
  }

  /** The robot tile of player `k` facing `d`. */
  function RobotTile(k: int, d: Direction): TileID
    requires 1 <= k <= 8
  {
    match d
    case South => if k == 1 then PLAYER_1_SOUTH else if k == 2 then PLAYER_2_SOUTH else if k == 3 then PLAYER_3_SOUTH else if k == 4 then PLAYER_4_SOUTH else if k == 5 then PLAYER_5_SOUTH else if k == 6 then PLAYER_6_SOUTH else if k == 7 then PLAYER_7_SOUTH else PLAYER_8_SOUTH
    case North => if k == 1 then PLAYER_1_NORTH else if k == 2 then PLAYER_2_NORTH else if k == 3 then PLAYER_3_NORTH else if k == 4 then PLAYER_4_NORTH else if k == 5 then PLAYER_5_NORTH else if k == 6 then PLAYER_6_NORTH else if k == 7 then PLAYER_7_NORTH else PLAYER_8_NORTH
    case East => if k == 1 then PLAYER_1_EAST else if k == 2 then PLAYER_2_EAST else if k == 3 then PLAYER_3_EAST else if k == 4 then PLAYER_4_EAST else if k == 5 then PLAYER_5_EAST else if k == 6 then PLAYER_6_EAST else if k == 7 then PLAYER_7_EAST else PLAYER_8_EAST
    case West => if k == 1 then PLAYER_1_WEST else if k == 2 then PLAYER_2_WEST else if k == 3 then PLAYER_3_WEST else if k == 4 then PLAYER_4_WEST else if k == 5 then PLAYER_5_WEST else if k == 6 then PLAYER_6_WEST else if k == 7 then PLAYER_7_WEST else PLAYER_8_WEST
  }

  /** The robot tiles sit in blocks of four per player, facing south, north, east, west. */
  lemma RobotTileAt(k: int, d: Direction)
    requires 1 <= k <= 8
    ensures RobotTiles()[4 * (k - 1) + Slot(d)] == RobotTile(k, d)
  {
    var i := 4 * (k - 1) + Slot(d);
    assert i / 4 == k - 1 && i % 4 == Slot(d);
    assert SlotDirection(Slot(d)) == d;
  }

  /** Player `k`'s tile facing `d` is named `PLAYER_<k>_<facing>`. */
  lemma RobotTileName(k: int, d: Direction)
    requires 1 <= k <= 8
    ensures Name(RobotTile(k, d)) == RobotName([DigitChar(k)], FacingName(d))
  {
    match d
    case South => SouthTileName(k);
    case North => NorthTileName(k);
    case East => EastTileName(k);
    case West => WestTileName(k);
  }

  lemma SouthTileName(k: int)
    requires 1 <= k <= 8
    ensures Name(RobotTile(k, South)) == RobotName([DigitChar(k)], FacingName(South))
  {
    if k == 1 {} else if k == 2 {} else if k == 3 {} else if k == 4 {}
    else if k == 5 {} else if k == 6 {} else if k == 7 {} else {}
  }

  lemma NorthTileName(k: int)
    requires 1 <= k <= 8
    ensures Name(RobotTile(k, North)) == RobotName([DigitChar(k)], FacingName(North))
  {
    if k == 1 {} else if k == 2 {} else if k == 3 {} else if k == 4 {}
    else if k == 5 {} else if k == 6 {} else if k == 7 {} else {}
  }

  lemma EastTileName(k: int)
    requires 1 <= k <= 8
    ensures Name(RobotTile(k, East)) == RobotName([DigitChar(k)], FacingName(East))
  {
    if k == 1 {} else if k == 2 {} else if k == 3 {} else if k == 4 {}
    else if k == 5 {} else if k == 6 {} else if k == 7 {} else {}
  }

  lemma WestTileName(k: int)
    requires 1 <= k <= 8
    ensures Name(RobotTile(k, West)) == RobotName([DigitChar(k)], FacingName(West))
  {
    if k == 1 {} else if k == 2 {} else if k == 3 {} else if k == 4 {}
    else if k == 5 {} else if k == 6 {} else if k == 7 {} else {}
  }

  /** Player `k`'s tile facing `d` has id `133 + 4k + slot`. */
  lemma RobotTileId(k: int, d: Direction)
    requires 1 <= k <= 8
    ensures Id(RobotTile(k, d)) == 133 + 4 * k + Slot(d)
  {
  }

  /** The four robot tiles without a player number have names too short to carry one. */
  lemma UnnumberedTiles(i: int)
    requires 32 <= i < 36
    ensures |Name(RobotTiles()[i])| <= 12
  {
  }

  predicate NoUnderscore(s: string) {
    forall j :: 0 <= j < |s| ==> s[j] != '_'
  }

  /** The part of `s` before its first underscore. */
  function UpToUnderscore(s: string): string {
    if |s| == 0 || s[0] == '_' then [] else [s[0]] + UpToUnderscore(s[1..])
  }

  lemma {:induction false} UpToUnderscoreOf(a: string, f: string)
    requires NoUnderscore(a)
    ensures UpToUnderscore(a + "_" + f) == a
  {
    if |a| > 0 {
      assert (a + "_" + f)[1..] == a[1..] + "_" + f;
      UpToUnderscoreOf(a[1..], f);
    }
  }

  /** A robot name splits uniquely into number and facing when the number has no underscore. */
  lemma RobotNameInjective(a: string, f: string, b: string, g: string)
    requires NoUnderscore(a) && NoUnderscore(b)
    ensures RobotName(a, f) == RobotName(b, g) <==> a == b && f == g
  {
    if RobotName(a, f) == RobotName(b, g) {
      var x := RobotName(a, f);
      assert x[7..] == a + "_" + f;
      assert x[7..] == b + "_" + g;
      UpToUnderscoreOf(a, f);
      UpToUnderscoreOf(b, g);
      assert a == b;
      assert f == x[8 + |a|..] == g;
    }
  }

  /** The rendering of `n` is the single digit `k` exactly when `n == k`. */
  lemma RenderedDigit(n: int, k: int)
    requires 0 <= k < 10
    ensures IntToString(n) == [DigitChar(k)] <==> n == k
  {
    SingleCharRendering(n);
    if IntToString(n) == [DigitChar(k)] {
      assert 0 <= n < 10;
      assert DigitChar(n) == DigitChar(k);
      assert DigitValue(DigitChar(n)) == n && DigitValue(DigitChar(k)) == k;
    }
  }

  /** Constant `i` of the scan: player `i / 4 + 1`'s tile at place `i % 4`
      with id `137 + i`, or, past the numbered ones, a name too short to carry a number. */
  lemma TileAt(i: int)
    requires 0 <= i < 36
    ensures i < 32 ==> Name(RobotTiles()[i]) == RobotName([DigitChar(i / 4 + 1)], FacingName(SlotDirection(i % 4)))
    ensures i < 32 ==> Id(RobotTiles()[i]) == 137 + i
    ensures 32 <= i ==> |Name(RobotTiles()[i])| <= 12
  {
    if i < 32 {
      var k, d := i / 4 + 1, SlotDirection(i % 4);
      assert i == 4 * (k - 1) + Slot(d);
      RobotTileAt(k, d);
      RobotTileName(k, d);
      RobotTileId(k, d);
    } else {
      UnnumberedTiles(i);
    }
  }

  /** Player `k`'s name for facing `d` is the name `getRobotId(n)` looks for
      with facing `e` exactly when `n == k` and `d == e`. */
  lemma RobotNameMatch(k: int, d: Direction, n: int, e: Direction)
    requires 1 <= k <= 8
    ensures RobotName([DigitChar(k)], FacingName(d)) == RobotName(IntToString(n), FacingName(e))
            <==> n == k && d == e
  {
    RenderedShape(n);
    var number := IntToString(n);
    assert NoUnderscore(number) by {
      forall j | 0 <= j < |number| ensures number[j] != '_' {
        assert IsDigit(number[j]) || (j == 0 && n < 0);
        if !IsDigit(number[j]) {
          assert number[0] == '-';
        }
      }
    }
    RobotNameInjective([DigitChar(k)], FacingName(d), number, FacingName(e));
    RenderedDigit(n, k);
    if FacingName(d) == FacingName(e) {
      assert d == e;
    }
  }

  /** Player `n`'s own tile for facing `d` is recorded under `d`. */
  lemma RecordHit(m: map<Direction, int>, n: int, d: Direction, id: int)
    requires 1 <= n <= 8
    ensures Record(m, RobotName([DigitChar(n)], FacingName(d)), id, IntToString(n)) == m[d := id]
  {
    RobotNameMatch(n, d, n, South);
    RobotNameMatch(n, d, n, North);
    RobotNameMatch(n, d, n, East);
    RobotNameMatch(n, d, n, West);
  }

  /** Another player's tile is not recorded. */
  lemma RecordOtherPlayer(m: map<Direction, int>, k: int, d: Direction, id: int, n: int)
    requires 1 <= k <= 8 && n != k
    ensures Record(m, RobotName([DigitChar(k)], FacingName(d)), id, IntToString(n)) == m
  {
    RobotNameMatch(k, d, n, South);
    RobotNameMatch(k, d, n, North);
    RobotNameMatch(k, d, n, East);
    RobotNameMatch(k, d, n, West);
  }

  /** A name of at most 12 characters is never one `getRobotId` looks for. */
  lemma RecordShortName(m: map<Direction, int>, name: string, id: int, n: int)
    requires |name| <= 12
    ensures Record(m, name, id, IntToString(n)) == m
  {
    RenderedShape(n);
  }

  /** The entries `getRobotId(n)` has after `k` constants, by position alone:
      constant `i < 32` is player `i / 4 + 1`'s tile at place `i % 4`, id `137 + i`. */
  function PartialRobotIds(n: int, k: nat): map<Direction, int> {
    if k == 0 then map[]
    else
      var i := k - 1;
      var ids := PartialRobotIds(n, i);
      if i < 32 && n == i / 4 + 1 then ids[SlotDirection(i % 4) := 137 + i] else ids
  }

  /** The scan by name agrees with the scan by position. */
  lemma {:induction false} ScanByPosition(n: int, k: nat)
    requires k <= 36
    ensures ScanRobotIds(n, k) == PartialRobotIds(n, k)
  {
    if k > 0 {
      ScanByPosition(n, k - 1);
      var i := k - 1;
      var m := ScanRobotIds(n, i);
      TileAt(i);
      if i < 32 {
        var p, d := i / 4 + 1, SlotDirection(i % 4);
        if n == p {
          RecordHit(m, n, d, 137 + i);
        } else {
          RecordOtherPlayer(m, p, d, 137 + i, n);
        }
      } else {
        RecordShortName(m, Name(RobotTiles()[i]), Id(RobotTiles()[i]), n);
      }
    }
  }

  /** Positions outside player `n`'s block add nothing. */
  lemma {:induction false} PartialSkips(n: int, from: nat, to: nat)
    requires from <= to
    requires forall i :: from <= i < to ==> !(i < 32 && n == i / 4 + 1)
    ensures PartialRobotIds(n, to) == PartialRobotIds(n, from)
  {
    if from < to {
      PartialSkips(n, from, to - 1);
    }
  }

  lemma BlockPlace(n: int, j: int)
    requires 1 <= n <= 8 && 0 <= j < 4
    ensures 4 * (n - 1) + j < 32 && (4 * (n - 1) + j) / 4 + 1 == n && (4 * (n - 1) + j) % 4 == j
  {
  }

  /** For players 1..8 the scan finds the four robot tiles `133+4n .. 136+4n`;
      for any other number, nothing. */
  lemma RobotIdsTable(n: int)
    ensures ScanRobotIds(n, 36) == ExpectedRobotIds(n)
  {
    ScanByPosition(n, 36);
    PositionTable(n);
  }

  /** The scan by position finds player `n`'s block, and only it. */
  lemma PositionTable(n: int)
    ensures PartialRobotIds(n, 36) == ExpectedRobotIds(n)
  {
    if 1 <= n <= 8 {
      var b := 4 * (n - 1);
      PartialSkips(n, 0, b);
      BlockEntries(n);
      PartialSkips(n, b + 4, 36);
    } else {
      PartialSkips(n, 0, 36);
    }
  }

  /** Player `n`'s block of four adds its four tiles. */
  lemma BlockEntries(n: int)
    requires 1 <= n <= 8
    ensures var b := 4 * (n - 1);
      PartialRobotIds(n, b + 4) ==
      PartialRobotIds(n, b)[South := 137 + b][North := 138 + b][East := 139 + b][West := 140 + b]
  {
    BlockStep(n, 0);
    BlockStep(n, 1);
    BlockStep(n, 2);
    BlockStep(n, 3);
  }

  /** Place `j` of player `n`'s block records the tile at that place. */
  lemma BlockStep(n: int, j: int)
    requires 1 <= n <= 8 && 0 <= j < 4
    ensures var i := 4 * (n - 1) + j;
      PartialRobotIds(n, i + 1) == PartialRobotIds(n, i)[SlotDirection(j) := 137 + i]
  {
    BlockPlace(n, j);
  }
}
