/** The static side of the newer board: start tiles, the laser overlay a
    beam leaves in a cell, the 3×3 neighbourhood, the belts fixed on the
    map and the corner-belt turn table. */
module Terrain {
  import opened Wrappers
  import opened Geometry
  import opened TileIds
  import opened Walls

  /** A conveyor belt: a cell and the direction it carries robots. */
  datatype Belt = Belt(direction: Direction, position: Pos)

  /** A checkpoint flag: its number in the visiting order and its cell. */
  datatype Flag = Flag(number: int, position: Pos)

  /** The cell `p` lies on a board of the given size. */
  predicate Inside(p: Pos, width: int, height: int) {
    0 <= p.x < width && 0 <= p.y < height
  }

  // ---------------------------------------------------------------------
  // Start positions

  /** The ground tile id that marks player `n`'s start cell: START_POS1..4
      are 121..124 and START_POS5..8 are 129..132; none outside 1..8. */
  function StartId(n: int): Option<int> {
    if 1 <= n <= 4 then Some(120 + n)
    else if 5 <= n <= 8 then Some(124 + n)
    else None
  }

  /** Start tiles exist for players 1..8 only, and player `n`'s is START_POS`n`. */
  lemma StartIds(n: int)
    ensures StartId(n).Some? <==> 1 <= n <= 8
    ensures n == 1 ==> StartId(n) == Some(Id(START_POS1))
    ensures n == 2 ==> StartId(n) == Some(Id(START_POS2))
    ensures n == 3 ==> StartId(n) == Some(Id(START_POS3))
    ensures n == 4 ==> StartId(n) == Some(Id(START_POS4))
    ensures n == 5 ==> StartId(n) == Some(Id(START_POS5))
    ensures n == 6 ==> StartId(n) == Some(Id(START_POS6))
    ensures n == 7 ==> StartId(n) == Some(Id(START_POS7))
    ensures n == 8 ==> StartId(n) == Some(Id(START_POS8))
  {
    StartPosIds();
  }

  /** No two players share a start tile. */
  lemma StartIdsDistinct(m: int, n: int)
    requires StartId(m).Some? && StartId(m) == StartId(n)
    ensures m == n
  {
  }

  /** Cell `q` comes before cell `p` in the scan: columns from west to
      east, each column from south to north. */
  predicate ScannedBefore(q: Pos, p: Pos) {
    q.x < p.x || (q.x == p.x && q.y < p.y)
  }

  /** Cell `p` of the board is player `n`'s start tile. */
  predicate IsStart(ground: map<Pos, int>, p: Pos, n: int) {
    StartId(n).Some? && p in ground && ground[p] == StartId(n).value
  }

  // ---------------------------------------------------------------------
  // The laser overlay

  predicate Vertical(d: Direction) {
    d == North || d == South
  }

  /** `addLaser` on one cell: an empty cell takes the beam's orientation
      (VERTICAL_LASER is 47, HORIZONTAL_LASER 39), a cell with the crossing
      orientation becomes a crossed beam (CROSSED_LASER, 40), and any other
      tile is left as it is. */
  function AddBeam(cell: Option<int>, d: Direction): (r: Option<int>)
    ensures r.Some?
    ensures cell.Some? ==> r == cell || r == Some(40)
  {
    if Vertical(d) then
      if cell.None? then Some(47)
      else if cell.value == 39 then Some(40)
      else cell
    else
      if cell.None? then Some(39)
      else if cell.value == 47 then Some(40)
      else cell
  }

  /** The cell shows a beam running in `d`'s orientation. */
  predicate ShowsBeam(cell: Option<int>, d: Direction) {
    cell == Some(if Vertical(d) then 47 else 39) || cell == Some(40)
  }

  /** The overlay as a state machine over the laser tiles: an empty cell
      takes the beam's tile, the crossing tile becomes the crossed tile, and
      a cell already showing the beam keeps it. */
  lemma AddBeamTable(cell: Option<int>, d: Direction)
    ensures var along := if Vertical(d) then VERTICAL_LASER else HORIZONTAL_LASER;
      var across := if Vertical(d) then HORIZONTAL_LASER else VERTICAL_LASER;
      (cell == None ==> AddBeam(cell, d) == Some(Id(along))) &&
      (cell == Some(Id(across)) ==> AddBeam(cell, d) == Some(Id(CROSSED_LASER))) &&
      (cell == Some(Id(along)) ==> AddBeam(cell, d) == cell) &&
      (cell == Some(Id(CROSSED_LASER)) ==> AddBeam(cell, d) == cell)
  {
    LaserIds();
  }

  /** After a beam passes, an empty or beam cell shows it, and a beam that
      was already shown is still shown. */
  lemma AddBeamShows(cell: Option<int>, d: Direction, e: Direction)
    requires cell == None || ShowsBeam(cell, North) || ShowsBeam(cell, East)
    ensures ShowsBeam(AddBeam(cell, d), d)
    ensures ShowsBeam(cell, e) ==> ShowsBeam(AddBeam(cell, d), e)
  {
  }

  /** A second beam in the same orientation changes nothing, and two beams
      leave the same cell in either order. */
  lemma AddBeamOrderFree(cell: Option<int>, d: Direction, e: Direction)
    ensures AddBeam(AddBeam(cell, d), d) == AddBeam(cell, d)
    ensures AddBeam(AddBeam(cell, d), e) == AddBeam(AddBeam(cell, e), d)
  {
  }

  /** A cell of the laser overlay that is empty or shows a beam. */
  predicate BeamLike(cell: Option<int>) {
    cell == None || ShowsBeam(cell, North) || ShowsBeam(cell, East)
  }

  /** `addLaser` on a whole layer: the beam is drawn in cell `p` when `p` is
      on the board; a cell off the board cannot be set, so nothing changes. */
  function LayBeam(layer: map<Pos, int>, p: Pos, d: Direction, width: int, height: int): map<Pos, int> {
    if Inside(p, width, height) then layer[p := AddBeam(CellAt(layer, p), d).value] else layer
  }

  /** The layer after a beam in direction `d` is drawn over `cells`, in order. */
  function Overlay(layer: map<Pos, int>, cells: seq<Pos>, d: Direction, width: int, height: int): map<Pos, int>
    decreases |cells|
  {
    if |cells| == 0 then layer else Overlay(LayBeam(layer, cells[0], d, width, height), cells[1..], d, width, height)
  }

  /** Drawing a beam over a first cell and then the rest. */
  lemma OverlayCons(layer: map<Pos, int>, p: Pos, cells: seq<Pos>, d: Direction, width: int, height: int)
    ensures Overlay(layer, [p] + cells, d, width, height) == Overlay(LayBeam(layer, p, d, width, height), cells, d, width, height)
  {
    assert ([p] + cells)[1..] == cells;
  }

  /** Drawing a beam over some cells of an overlay that holds only beams
      makes each of those cells on the board show the beam, and touches no
      other cell. */
  lemma {:induction false} OverlayMarks(layer: map<Pos, int>, cells: seq<Pos>, d: Direction, width: int, height: int)
    requires forall c :: c in cells ==> BeamLike(CellAt(layer, c))
    ensures forall q :: q !in cells || !Inside(q, width, height) ==>
      CellAt(Overlay(layer, cells, d, width, height), q) == CellAt(layer, q)
    ensures forall q :: q in cells && Inside(q, width, height) ==>
      ShowsBeam(CellAt(Overlay(layer, cells, d, width, height), q), d)
    decreases |cells|
  {
    if |cells| > 0 {
      var p := cells[0];
      var next := LayBeam(layer, p, d, width, height);
      if Inside(p, width, height) {
        AddBeamShows(CellAt(layer, p), d, d);
        assert CellAt(next, p) == AddBeam(CellAt(layer, p), d);
      }
      assert forall c :: c in cells[1..] ==> c in cells;
      OverlayMarks(next, cells[1..], d, width, height);
      forall q | q in cells && Inside(q, width, height)
        ensures ShowsBeam(CellAt(Overlay(layer, cells, d, width, height), q), d)
      {
        if q !in cells[1..] {
          assert q == p;
        }
      }
    }
  }

  // ---------------------------------------------------------------------
  // The neighbourhood

  /** The nine offsets in the order `getNeighbourhood` visits them: rows from
      south to north, each row from west to east. */
  const Offsets: seq<(int, int)> :=
    [(-1, -1), (0, -1), (1, -1), (-1, 0), (0, 0), (1, 0), (-1, 1), (0, 1), (1, 1)]

  function OffsetCell(p: Pos, k: nat): Pos
    requires k < 9
  {
    Pos(p.x + Offsets[k].0, p.y + Offsets[k].1)
  }

  /** The on-board cells among the first `k` offsets, in scan order. */
  function ScanCells(p: Pos, k: nat, width: int, height: int): seq<Pos>
    requires k <= 9
  {
    if k == 0 then []
    else
      var c := OffsetCell(p, k - 1);
      ScanCells(p, k - 1, width, height) + if Inside(c, width, height) then [c] else []
  }

  /** `getNeighbourhood`'s result. */
  function Neighbourhood(p: Pos, width: int, height: int): seq<Pos> {
    ScanCells(p, 9, width, height)
  }

  /** `q` is in the 3×3 block centred on `p`. */
  predicate Adjacent(p: Pos, q: Pos) {
    -1 <= q.x - p.x <= 1 && -1 <= q.y - p.y <= 1
  }

  /** The first `k` offsets name distinct cells, all in the block. */
  lemma {:induction false} ScanCellsFacts(p: Pos, k: nat, width: int, height: int)
    requires k <= 9
    ensures |ScanCells(p, k, width, height)| <= k
    ensures forall c :: c in ScanCells(p, k, width, height) <==>
      exists j :: 0 <= j < k && c == OffsetCell(p, j) && Inside(c, width, height)
    ensures forall i, j :: 0 <= i < j < |ScanCells(p, k, width, height)| ==>
      ScanCells(p, k, width, height)[i] != ScanCells(p, k, width, height)[j]
  {
    if k > 0 {
      ScanCellsFacts(p, k - 1, width, height);
      var c := OffsetCell(p, k - 1);
      var prev := ScanCells(p, k - 1, width, height);
      assert forall j :: 0 <= j < k - 1 ==> OffsetCell(p, j) != c;
      var s := ScanCells(p, k, width, height);
      assert s == prev + if Inside(c, width, height) then [c] else [];
      forall x | x in s
        ensures exists j :: 0 <= j < k && x == OffsetCell(p, j) && Inside(x, width, height)
      {
        if x !in prev {
          assert x == c;
        }
      }
    }
  }

  /** The block's cells are exactly the nine offsets. */
  lemma OffsetsCoverBlock(p: Pos, q: Pos)
    ensures Adjacent(p, q) <==> exists j :: 0 <= j < 9 && q == OffsetCell(p, j)
  {
    if Adjacent(p, q) {
      var j := 3 * (q.y - p.y + 1) + (q.x - p.x + 1);
      assert q == OffsetCell(p, j);
    }
  }

  /** Offset number `3 * (dy + 1) + (dx + 1)` is `(dx, dy)`, so the scan
      visiting it adds the cell `p + (dx, dy)` when it is on the board. */
  lemma OffsetAt(p: Pos, dx: int, dy: int, width: int, height: int)
    requires -1 <= dx <= 1 && -1 <= dy <= 1
    ensures var k := 3 * (dy + 1) + (dx + 1); var c := Pos(p.x + dx, p.y + dy);
      OffsetCell(p, k) == c &&
      ScanCells(p, k + 1, width, height) == ScanCells(p, k, width, height) + if Inside(c, width, height) then [c] else []
  {
  }

  /** `getNeighbourhood` returns exactly the on-board cells of the 3×3 block
      centred on `p` (the centre included), each once, so at most nine. */
  lemma NeighbourhoodSpec(p: Pos, width: int, height: int)
    ensures forall q :: q in Neighbourhood(p, width, height) <==> Adjacent(p, q) && Inside(q, width, height)
    ensures |Neighbourhood(p, width, height)| <= 9
    ensures forall i, j :: 0 <= i < j < |Neighbourhood(p, width, height)| ==>
      Neighbourhood(p, width, height)[i] != Neighbourhood(p, width, height)[j]
    ensures Inside(p, width, height) ==> p in Neighbourhood(p, width, height)
  {
    ScanCellsFacts(p, 9, width, height);
    forall q
      ensures q in Neighbourhood(p, width, height) <==> Adjacent(p, q) && Inside(q, width, height)
    {
      OffsetsCoverBlock(p, q);
    }
  }

  // ---------------------------------------------------------------------
  // Belts

  /** The turn `beltPush` makes a robot take when a belt carries it on in
      direction `belt` after the previous push went in direction `last`. */
  function BeltTurn(last: Option<Direction>, belt: Direction): Rotate {
    match last
    case None => NoRotate
    case Some(North) => if belt == East then Right else if belt == West then Left else NoRotate
    case Some(South) => if belt == West then Right else if belt == East then Left else NoRotate
    case Some(East) => if belt == South then Right else if belt == North then Left else NoRotate
    case Some(West) => if belt == North then Right else if belt == South then Left else NoRotate
  }

  /** The table turns the robot the way the belt turns: right when the belt
      bends clockwise, left when it bends counter-clockwise, not at all on a
      straight belt, a reversing belt or a first push. */
  lemma BeltTurnFollowsBelt(last: Option<Direction>, belt: Direction)
    ensures BeltTurn(last, belt) == Right <==> last.Some? && belt == last.value.TurnRight()
    ensures BeltTurn(last, belt) == Left <==> last.Some? && belt == last.value.TurnLeft()
    ensures BeltTurn(last, belt) != UTurn
  {
  }
}
