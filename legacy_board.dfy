/** The first board revision: robots are plain records (a number, a cell and
    a facing) kept in a list, and the board moves and pushes them in place.
    A robot is identified by its index in that list. */
module LegacyBoard {
  import opened Wrappers
  import opened Geometry
  import opened Walls
  import opened Pushing
  import opened Terrain

  datatype Robot = Robot(number: int, position: Pos, direction: Direction)

  /** The cells of a list of robots, in list order. */
  function Positions(rs: seq<Robot>): (ps: seq<Pos>)
    ensures |ps| == |rs|
    ensures forall k :: 0 <= k < |rs| ==> ps[k] == rs[k].position
  {
    seq(|rs|, k requires 0 <= k < |rs| => rs[k].position)
  }

  /** `b` holds the same robots as `a`, with the same numbers and facings,
      wherever they now stand. */
  predicate SameRobots(a: seq<Robot>, b: seq<Robot>) {
    |a| == |b| &&
    forall k :: 0 <= k < |a| ==> a[k].number == b[k].number && a[k].direction == b[k].direction
  }

  /** The first robot of a list standing at `p`, found from the front, is the
      one `FirstAt` names. */
  lemma {:induction false} FirstAtIsFirst(ps: seq<Pos>, p: Pos, i: nat)
    requires i < |ps| && ps[i] == p
    requires forall j :: 0 <= j < i ==> ps[j] != p
    ensures FirstAt(ps, p) == i
  {
    if i > 0 {
      FirstAtIsFirst(ps[1..], p, i - 1);
    }
  }

  // ---------------------------------------------------------------------
  // Start positions

  /** Which player a ground tile places when the board is set up for
      `numPlayers` players: START_POS1 always places player 1, START_POS`k`
      for a larger `k` only when more than `k - 1` players take part
      (`StartIds` ties `StartId(k)` to the tile START_POS`k`). */
  function PlacedBy(id: int, numPlayers: int): (r: Option<int>)
    ensures r.Some? ==> StartId(r.value) == Some(id) && (r.value == 1 || r.value <= numPlayers)
    ensures r.None? ==> forall k :: StartId(k) == Some(id) ==> k != 1 && k > numPlayers
  {
    if Some(id) == StartId(1) then Some(1)
    else if Some(id) == StartId(2) && numPlayers > 1 then Some(2)
    else if Some(id) == StartId(3) && numPlayers > 2 then Some(3)
    else if Some(id) == StartId(4) && numPlayers > 3 then Some(4)
    else if Some(id) == StartId(5) && numPlayers > 4 then Some(5)
    else if Some(id) == StartId(6) && numPlayers > 5 then Some(6)
    else if Some(id) == StartId(7) && numPlayers > 6 then Some(7)
    else if Some(id) == StartId(8) && numPlayers > 7 then Some(8)
    else None
  }

  /** The robot, if any, the set-up places on cell `p`, facing east. */
  function CellRobots(ground: map<Pos, int>, p: Pos, numPlayers: int): seq<Robot> {
    if p in ground && PlacedBy(ground[p], numPlayers).Some?
    then [Robot(PlacedBy(ground[p], numPlayers).value, p, East)]
    else []
  }

  /** The robots placed on cells (x, 0) to (x, y - 1), from the south. */
  function ColumnRobots(ground: map<Pos, int>, x: int, y: int, numPlayers: int): seq<Robot>
    decreases y
  {
    if y <= 0 then [] else ColumnRobots(ground, x, y - 1, numPlayers) + CellRobots(ground, Pos(x, y - 1), numPlayers)
  }

  /** The robots placed on columns 0 to x - 1 of a board `height` cells
      high, column by column from the west. */
  function ScanRobots(ground: map<Pos, int>, x: int, height: int, numPlayers: int): seq<Robot>
    decreases x
  {
    if x <= 0 then [] else ScanRobots(ground, x - 1, height, numPlayers) + ColumnRobots(ground, x - 1, height, numPlayers)
  }

  /** A robot is placed in column `x` below row `y` exactly when it faces
      east on its own start tile there and its number takes part. */
  lemma {:induction false} ColumnRobotsPlaced(ground: map<Pos, int>, x: int, y: int, numPlayers: int)
    ensures forall r :: r in ColumnRobots(ground, x, y, numPlayers) <==>
      && r.position.x == x && 0 <= r.position.y < y && r.direction == East
      && IsStart(ground, r.position, r.number) && (r.number == 1 || r.number <= numPlayers)
    decreases y
  {
    if y > 0 {
      ColumnRobotsPlaced(ground, x, y - 1, numPlayers);
      var p := Pos(x, y - 1);
      forall k | IsStart(ground, p, k) && (k == 1 || k <= numPlayers)
        ensures PlacedBy(ground[p], numPlayers) == Some(k)
      {
        var m := PlacedBy(ground[p], numPlayers);
        if m.Some? {
          StartIdsDistinct(m.value, k);
        }
      }
    }
  }

  /** A robot is placed on the first `x` columns exactly when it faces east
      on its own start tile there and its number takes part: one robot per
      start tile, player 1 always, player `k` when more than `k - 1` play. */
  lemma {:induction false} ScanRobotsPlaced(ground: map<Pos, int>, x: int, height: int, numPlayers: int)
    ensures forall r :: r in ScanRobots(ground, x, height, numPlayers) <==>
      && Inside(r.position, x, height) && r.direction == East
      && IsStart(ground, r.position, r.number) && (r.number == 1 || r.number <= numPlayers)
    decreases x
  {
    if x > 0 {
      ScanRobotsPlaced(ground, x - 1, height, numPlayers);
      ColumnRobotsPlaced(ground, x - 1, height, numPlayers);
    }
  }

  lemma ConcatAssociates<T>(a: seq<T>, b: seq<T>, c: seq<T>)
    ensures a + b + c == a + (b + c)
  {
  }

  class Board {
    const width: int
    const height: int
    const walls: WallLayer
    const holes: seq<Pos>
    const ground: map<Pos, int>
    var players: seq<Robot>

    /** The map's layers and an empty list of robots, before
        `AddPlayersToStartPositions` places them. */
    constructor (width: int, height: int, walls: WallLayer, holes: seq<Pos>, ground: map<Pos, int>)
      ensures this.width == width && this.height == height
      ensures this.walls == walls && this.holes == holes && this.ground == ground
      ensures players == []
    {
      this.width := width;
      this.height := height;
      this.walls := walls;
      this.holes := holes;
      this.ground := ground;
      players := [];
    }

    /** `u` is the first cell of the board, in scan order, without ground. */
    ghost predicate FirstUncovered(u: Pos) {
      && Inside(u, width, height) && u !in ground
      && forall q :: Inside(q, width, height) && ScannedBefore(q, u) ==> q in ground
    }

    /** The robots the set-up places on the cells it scans before `u`. */
    function RobotsBefore(u: Pos, numPlayers: int): seq<Robot> {
      ScanRobots(ground, u.x, height, numPlayers) + ColumnRobots(ground, u.x, u.y, numPlayers)
    }

    /** `addPlayersToStartPositions(numPlayers)`: scans the ground column by
        column from the west, each column from the south, and adds a robot
        on every start tile whose player takes part. The scan reads every
        cell's tile, so a cell without ground throws once the robots of the
        cells before it have been added. */
    method AddPlayersToStartPositions(numPlayers: int) returns (r: Result<(), string>)
      modifies this
      ensures r.Ok? ==>
        && (forall p :: Inside(p, width, height) ==> p in ground)
        && players == old(players) + ScanRobots(ground, width, height, numPlayers)
      ensures r.Err? ==>
        && r.error == "NullPointerException"
        && exists u :: FirstUncovered(u) && players == old(players) + RobotsBefore(u, numPlayers)
    {
      ghost var start := players;
      var x := 0;
      while x < width
        invariant 0 <= x && (x <= width || x == 0)
        invariant forall q :: Inside(q, x, height) ==> q in ground
        invariant players == start + ScanRobots(ground, x, height, numPlayers)
        decreases width - x
      {
        ghost var scanned := ScanRobots(ground, x, height, numPlayers);
        var y;
        r, y := AddColumn(x, numPlayers);
        ghost var column := players[|start + scanned|..];
        assert players == (start + scanned) + column;
        ConcatAssociates(start, scanned, column);
        if r.Err? {
          UncoveredFirst(Pos(x, y));
          return;
        }
        x := x + 1;
      }
      assert ScanRobots(ground, x, height, numPlayers) == ScanRobots(ground, width, height, numPlayers);
      return Ok(());
    }

    /** A cell without ground after a scan that found ground everywhere
        before it is the first such cell. */
    lemma UncoveredFirst(u: Pos)
      requires Inside(u, width, height) && u !in ground
      requires forall q :: Inside(q, u.x, height) ==> q in ground
      requires forall q: Pos :: q.x == u.x && 0 <= q.y < u.y ==> q in ground
      ensures FirstUncovered(u)
    {
    }

    /** One column of `addPlayersToStartPositions`' scan, from the south:
        a robot on every start tile whose player takes part, up to the
        first cell `y` without ground, which throws. */
    method AddColumn(x: int, numPlayers: int) returns (r: Result<(), string>, y: int)
      modifies this
      ensures r.Ok? ==>
        && (forall q: Pos :: q.x == x && 0 <= q.y < height ==> q in ground)
        && players == old(players) + ColumnRobots(ground, x, height, numPlayers)
      ensures r.Err? ==>
        && r.error == "NullPointerException"
        && 0 <= y < height && Pos(x, y) !in ground
        && (forall q: Pos :: q.x == x && 0 <= q.y < y ==> q in ground)
        && players == old(players) + ColumnRobots(ground, x, y, numPlayers)
    {
      y := 0;
      while y < height
        invariant 0 <= y && (y <= height || y == 0)
        invariant forall q: Pos :: q.x == x && 0 <= q.y < y ==> q in ground
        invariant players == old(players) + ColumnRobots(ground, x, y, numPlayers)
        decreases height - y
      {
        if Pos(x, y) !in ground {
          return Err("NullPointerException"), y;
        }
        var n := PlacedBy(ground[Pos(x, y)], numPlayers);
        if n.Some? {
          AddPlayerAt(x, y, n.value);
        }
        y := y + 1;
      }
      assert ColumnRobots(ground, x, y, numPlayers) == ColumnRobots(ground, x, height, numPlayers);
      return Ok(()), y;
    }

    /** `hasPlayer`: some robot stands at `p`. */
    method HasPlayer(p: Pos) returns (b: bool)
      ensures b <==> p in Positions(players)
    {
      var k := 0;
      while k < |players|
        invariant 0 <= k <= |players|
        invariant p !in Positions(players[..k])
      {
        if players[k].position == p {
          assert Positions(players)[k] == p;
          return true;
        }
        assert Positions(players[..k + 1]) == Positions(players[..k]) + [players[k].position];
        k := k + 1;
      }
      assert players[..k] == players;
      return false;
    }

    /** `getPlayer`: the first robot in the list standing at `p`, or none. */
    method GetPlayer(p: Pos) returns (r: Option<nat>)
      ensures r.Some? <==> p in Positions(players)
      ensures r.Some? ==> r.value < |players| && players[r.value].position == p
      ensures r.Some? ==> forall j :: 0 <= j < r.value ==> players[j].position != p
    {
      var k := 0;
      while k < |players|
        invariant 0 <= k <= |players|
        invariant forall j :: 0 <= j < k ==> players[j].position != p
      {
        if players[k].position == p {
          assert Positions(players)[k] == p;
          return Some(k);
        }
        k := k + 1;
      }
      return None;
    }

    /** `onHole`: the robot stands on one of the board's holes. */
    method OnHole(r: Robot) returns (b: bool)
      ensures b <==> r.position in holes
    {
      var k := 0;
      while k < |holes|
        invariant 0 <= k <= |holes|
        invariant r.position !in holes[..k]
      {
        if holes[k] == r.position {
          return true;
        }
        assert holes[..k + 1] == holes[..k] + [holes[k]];
        k := k + 1;
      }
      assert holes[..k] == holes;
      return false;
    }

    /** A cell off the board or on a hole. */
    predicate Lost(p: Pos)
      reads this
    {
      p.x < 0 || p.x >= width || p.y < 0 || p.y >= height || p in holes
    }

    /** `outsideBoard`: the robot has left the board or fallen into a hole;
        a robot on any other cell of the board is safe. */
    method OutsideBoard(r: Robot) returns (b: bool)
      ensures b <==> Lost(r.position)
      ensures 0 <= r.position.x < width && 0 <= r.position.y < height ==> (b <==> r.position in holes)
    {
      var p := r.position;
      var hole := OnHole(r);
      b := p.x < 0 || p.x >= width || p.y < 0 || p.y >= height || hole;
    }

    /** `addPlayer`: appends the robot unless the list already holds it. */
    method AddPlayer(r: Robot)
      modifies this
      ensures r in players
      ensures old(r in players) ==> players == old(players)
      ensures old(r !in players) ==> players == old(players) + [r]
    {
      if r !in players {
        players := players + [r];
      }
    }

    /** `addPlayer(x, y, n)`: a new robot numbered `n` at (x, y), facing
        east. It is a new object, which the list cannot already hold, so it
        is always appended. */
    method AddPlayerAt(x: int, y: int, n: int)
      modifies this
      ensures players == old(players) + [Robot(n, Pos(x, y), East)]
    {
      players := players + [Robot(n, Pos(x, y), East)];
    }

    /** `pushPlayer`: pushes the robot ahead of robot `j` first (and so on down
        the line), then moves `j` one cell in `d`. */
    method PushPlayer(j: nat, d: Direction)
      requires j < |players|
      modifies this
      ensures Positions(players) == Push(old(Positions(players)), j, d)
      ensures SameRobots(old(players), players)
      decreases MaxProgress(Positions(players), d) - Progress(players[j].position, d)
    {
      ghost var ps := Positions(players);
      var q := Neighbour(players[j].position, d);
      var ahead := HasPlayer(q);
      if ahead {
        var r := GetPlayer(q);
        assert r.Some?;
        FirstAtIsFirst(ps, q, r.value);
        PushPlayer(r.value, d);
        PushMovesRun(ps, r.value, d);
        if j in RunIndices(ps, r.value, d) {
          RunIndicesAhead(ps, r.value, d, j);
        }
      }
      players := players[j := players[j].(position := Neighbour(players[j].position, d))];
      assert Positions(players) == Push(ps, j, d);
    }

    /** `movePlayer`: robot `i` steps one cell in its facing, pushing the line
        of robots ahead of it when the code's push rule allows; if its edge
        is walled or the line cannot be pushed, nobody moves. */
    method MovePlayer(i: nat)
      requires i < |players|
      modifies this
      ensures Positions(players) == Move(walls, old(Positions(players)), i, old(players[i].direction))
      ensures SameRobots(old(players), players)
    {
      ghost var ps := Positions(players);
      var position := players[i].position;
      var direction := players[i].direction;
      if !CanGo(walls, position, direction) {
        return;
      }
      var q := Neighbour(position, direction);
      var push := HasPlayer(q);
      if push {
        var r := GetPlayer(q);
        assert r.Some?;
        FirstAtIsFirst(ps, q, r.value);
        var canPush := CanPush(walls, Positions(players), q, direction);
        if canPush {
          PushPlayer(r.value, direction);
          PushMovesRun(ps, r.value, direction);
          if i in RunIndices(ps, r.value, direction) {
            RunIndicesAhead(ps, r.value, direction, i);
          }
        } else {
          return;
        }
      }
      players := players[i := players[i].(position := q)];
      assert Positions(players) == Move(walls, ps, i, direction);
    }
  }
}
