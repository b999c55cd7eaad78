/** Robots pushing robots: the all-or-nothing push chain shared by both
    boards, stated over the list of robot positions in the order the board
    keeps its players (lookups search that list from the front). */
module Pushing {
  import opened Geometry
  import opened Wrappers
  import opened Walls

  /** The index of the first robot standing at `p` (`getPlayer`). */
  function FirstAt(ps: seq<Pos>, p: Pos): (i: nat)
    requires p in ps
    ensures i < |ps| && ps[i] == p
    ensures forall j :: 0 <= j < i ==> ps[j] != p
  {
    if ps[0] == p then 0 else 1 + FirstAt(ps[1..], p)
  }

  /** How far along `d` the furthest robot stands; bounds every push chain. */
  function MaxProgress(ps: seq<Pos>, d: Direction): (m: int)
    ensures forall q :: q in ps ==> Progress(q, d) <= m
  {
    if |ps| == 0 then 0
    else
      var rest := MaxProgress(ps[1..], d);
      assert forall q :: q in ps ==> q == ps[0] || q in ps[1..];
      if Progress(ps[0], d) > rest then Progress(ps[0], d) else rest
  }

  /** The number of robots in the unbroken line that starts at `p` and runs
      in direction `d`, counting `p` itself. */
  function RunLength(ps: seq<Pos>, p: Pos, d: Direction): (n: nat)
    ensures n >= 1
    decreases MaxProgress(ps, d) - Progress(p, d)
  {
    var q := Neighbour(p, d);
    if q in ps then 1 + RunLength(ps, q, d) else 1
  }

  /** The cell of the last robot in that line. */
  function RunEnd(ps: seq<Pos>, p: Pos, d: Direction): Pos {
    Shift(p, d, RunLength(ps, p, d) - 1)
  }

  /** `canPush`: follows the line of robots ahead and asks whether the last
      one can go. */
  function CanPush(walls: WallLayer, ps: seq<Pos>, p: Pos, d: Direction): bool
    decreases MaxProgress(ps, d) - Progress(p, d)
  {
    var q := Neighbour(p, d);
    if q in ps then CanPush(walls, ps, q, d) else CanGo(walls, p, d)
  }

  /** `pushPlayer` on positions: first pushes the robot ahead (if any), then
      moves robot `i` one cell on. */
  function Push(ps: seq<Pos>, i: nat, d: Direction): (r: seq<Pos>)
    requires i < |ps|
    ensures |r| == |ps|
    decreases MaxProgress(ps, d) - Progress(ps[i], d)
  {
    var q := Neighbour(ps[i], d);
    var rest := if q in ps then Push(ps, FirstAt(ps, q), d) else ps;
    rest[i := q]
  }

  /** The robots a push of robot `i` moves: `i` and, recursively, the first
      robot on the cell ahead. */
  function RunIndices(ps: seq<Pos>, i: nat, d: Direction): set<nat>
    requires i < |ps|
    decreases MaxProgress(ps, d) - Progress(ps[i], d)
  {
    var q := Neighbour(ps[i], d);
    {i} + if q in ps then RunIndices(ps, FirstAt(ps, q), d) else {}
  }

  /** `movePlayer` on positions: robot `i` steps in `d` unless a wall blocks
      it or the line it would push cannot move; then nobody moves. */
  function Move(walls: WallLayer, ps: seq<Pos>, i: nat, d: Direction): seq<Pos>
    requires i < |ps|
  {
    var p := ps[i];
    var q := Neighbour(p, d);
    if !CanGo(walls, p, d) then ps
    else if q in ps then
      if CanPush(walls, ps, q, d) then Push(ps, FirstAt(ps, q), d)[i := q] else ps
    else ps[i := q]
  }

  /** `canPush` holds exactly when the last robot of the line can go. */
  lemma {:induction false} CanPushAtRunEnd(walls: WallLayer, ps: seq<Pos>, p: Pos, d: Direction)
    ensures CanPush(walls, ps, p, d) == CanGo(walls, RunEnd(ps, p, d), d)
    decreases MaxProgress(ps, d) - Progress(p, d)
  {
    var q := Neighbour(p, d);
    if q in ps {
      CanPushAtRunEnd(walls, ps, q, d);
      ShiftFront(p, d, RunLength(ps, q, d) - 1);
    }
  }

  /** Every cell of the line holds a robot, and the cell just past its end is free. */
  lemma {:induction false} RunOccupied(ps: seq<Pos>, p: Pos, d: Direction, k: nat)
    requires 1 <= k < RunLength(ps, p, d)
    ensures Shift(p, d, k) in ps
    decreases MaxProgress(ps, d) - Progress(p, d)
  {
    var q := Neighbour(p, d);
    ShiftFront(p, d, k - 1);
    if k > 1 {
      RunOccupied(ps, q, d, k - 1);
    }
  }

  lemma {:induction false} RunEndsBeforeFreeCell(ps: seq<Pos>, p: Pos, d: Direction)
    ensures Neighbour(RunEnd(ps, p, d), d) !in ps
    decreases MaxProgress(ps, d) - Progress(p, d)
  {
    var q := Neighbour(p, d);
    if q in ps {
      RunEndsBeforeFreeCell(ps, q, d);
      ShiftFront(p, d, RunLength(ps, q, d) - 1);
    }
  }

  /** The robots a push moves all stand at or ahead of the pushed one. */
  lemma {:induction false} RunIndicesAhead(ps: seq<Pos>, i: nat, d: Direction, k: nat)
    requires i < |ps| && k in RunIndices(ps, i, d)
    ensures k < |ps| && Progress(ps[k], d) >= Progress(ps[i], d)
    ensures k == i || Progress(ps[k], d) > Progress(ps[i], d)
    decreases MaxProgress(ps, d) - Progress(ps[i], d)
  {
    var q := Neighbour(ps[i], d);
    if k != i {
      RunIndicesAhead(ps, FirstAt(ps, q), d, k);
    }
  }

  /** A push moves exactly the robots of `RunIndices` one cell in `d` and
      leaves every other robot where it was. */
  lemma {:induction false} PushMovesRun(ps: seq<Pos>, i: nat, d: Direction)
    requires i < |ps|
    ensures forall k :: 0 <= k < |ps| ==>
      Push(ps, i, d)[k] == if k in RunIndices(ps, i, d) then Neighbour(ps[k], d) else ps[k]
    decreases MaxProgress(ps, d) - Progress(ps[i], d)
  {
    var q := Neighbour(ps[i], d);
    if q in ps {
      PushMovesRun(ps, FirstAt(ps, q), d);
    }
  }

  /** The push moves as many robots as the line is long: no robot twice. */
  lemma {:induction false} RunIndicesCount(ps: seq<Pos>, i: nat, d: Direction)
    requires i < |ps|
    ensures |RunIndices(ps, i, d)| == RunLength(ps, ps[i], d)
    decreases MaxProgress(ps, d) - Progress(ps[i], d)
  {
    var q := Neighbour(ps[i], d);
    if q in ps {
      var j := FirstAt(ps, q);
      RunIndicesCount(ps, j, d);
      if i in RunIndices(ps, j, d) {
        RunIndicesAhead(ps, j, d, i);
        assert false;
      }
    }
  }

  /** Which robots `movePlayer` moves: none when blocked, otherwise the mover
      and the whole line ahead of it. */
  function Moved(walls: WallLayer, ps: seq<Pos>, i: nat, d: Direction): set<nat>
    requires i < |ps|
  {
    var p := ps[i];
    var q := Neighbour(p, d);
    if !CanGo(walls, p, d) then {}
    else if q in ps then
      if CanGo(walls, RunEnd(ps, q, d), d) then {i} + RunIndices(ps, FirstAt(ps, q), d) else {}
    else {i}
  }

  /** All or nothing: a move shifts exactly the robots of `Moved` by one cell,
      and it moves somebody exactly when the mover's edge is open and the line
      ahead (if any) can advance. */
  lemma MoveSpec(walls: WallLayer, ps: seq<Pos>, i: nat, d: Direction)
    requires i < |ps|
    ensures |Move(walls, ps, i, d)| == |ps|
    ensures forall k :: 0 <= k < |ps| ==>
      Move(walls, ps, i, d)[k] == if k in Moved(walls, ps, i, d) then Neighbour(ps[k], d) else ps[k]
    ensures Moved(walls, ps, i, d) != {} <==>
      CanGo(walls, ps[i], d) && (Neighbour(ps[i], d) in ps ==> CanGo(walls, RunEnd(ps, Neighbour(ps[i], d), d), d))
    ensures Moved(walls, ps, i, d) == {} ==> Move(walls, ps, i, d) == ps
  {
    var q := Neighbour(ps[i], d);
    if CanGo(walls, ps[i], d) && q in ps {
      CanPushAtRunEnd(walls, ps, q, d);
      PushMovesRun(ps, FirstAt(ps, q), d);
    }
  }

  /** The line rule with every edge checked: the line ahead can advance
      only when each of its robots can cross its own forward edge. The
      code's `canPush` asks only the last robot (see `PushThroughWall`). */
  function CanPushAll(walls: WallLayer, ps: seq<Pos>, p: Pos, d: Direction): bool
    decreases MaxProgress(ps, d) - Progress(p, d)
  {
    var q := Neighbour(p, d);
    CanGo(walls, p, d) && (q in ps ==> CanPushAll(walls, ps, q, d))
  }

  /** A robot at `p` stepping in `d` goes, under the checked line rule. */
  predicate GoesAll(walls: WallLayer, ps: seq<Pos>, p: Pos, d: Direction) {
    CanGo(walls, p, d) && (Neighbour(p, d) in ps ==> CanPushAll(walls, ps, Neighbour(p, d), d))
  }

  /** The robots of `ps` after one at `p` steps in `d` under the checked rule:
      the line ahead is pushed when the step goes, nobody moves otherwise. */
  function PushedAll(walls: WallLayer, ps: seq<Pos>, p: Pos, d: Direction): (r: seq<Pos>)
    ensures |r| == |ps|
  {
    var q := Neighbour(p, d);
    if GoesAll(walls, ps, p, d) && q in ps then Push(ps, FirstAt(ps, q), d) else ps
  }

  /** `movePlayer` with the checked line rule. */
  function MoveAll(walls: WallLayer, ps: seq<Pos>, i: nat, d: Direction): seq<Pos>
    requires i < |ps|
  {
    if GoesAll(walls, ps, ps[i], d) then PushedAll(walls, ps, ps[i], d)[i := Neighbour(ps[i], d)] else ps
  }

  /** Every robot of the line starting at `p` can cross its forward edge. */
  predicate LineOpen(walls: WallLayer, ps: seq<Pos>, p: Pos, d: Direction) {
    forall k :: 0 <= k < RunLength(ps, p, d) ==> CanGo(walls, Shift(p, d, k), d)
  }

  /** The checked rule holds exactly when every edge the line crosses is open. */
  lemma {:induction false} CanPushAllSpec(walls: WallLayer, ps: seq<Pos>, p: Pos, d: Direction)
    ensures CanPushAll(walls, ps, p, d) <==> LineOpen(walls, ps, p, d)
    decreases MaxProgress(ps, d) - Progress(p, d)
  {
    var q := Neighbour(p, d);
    assert Shift(p, d, 0) == p;
    if q in ps {
      CanPushAllSpec(walls, ps, q, d);
      forall k | 0 <= k < RunLength(ps, q, d)
        ensures Shift(q, d, k) == Shift(p, d, k + 1)
      {
        ShiftFront(p, d, k);
      }
      assert RunLength(ps, p, d) == 1 + RunLength(ps, q, d);
      if CanPushAll(walls, ps, p, d) {
        assert CanGo(walls, p, d) && LineOpen(walls, ps, q, d);
        forall k | 0 <= k < RunLength(ps, p, d)
          ensures CanGo(walls, Shift(p, d, k), d)
        {
          if k > 0 {
            assert CanGo(walls, Shift(q, d, k - 1), d);
          }
        }
      } else if CanGo(walls, p, d) {
        assert !LineOpen(walls, ps, q, d);
        var k :| 0 <= k < RunLength(ps, q, d) && !CanGo(walls, Shift(q, d, k), d);
        assert !CanGo(walls, Shift(p, d, k + 1), d);
      }
    } else {
      assert RunLength(ps, p, d) == 1;
      if CanGo(walls, p, d) {
        forall k | 0 <= k < RunLength(ps, p, d)
          ensures CanGo(walls, Shift(p, d, k), d)
        {
          assert k == 0;
        }
      }
    }
  }

  /** Under the checked rule, every robot of the pushed line can cross its
      forward edge. */
  lemma {:induction false} CanPushAllRun(walls: WallLayer, ps: seq<Pos>, j: nat, d: Direction, k: nat)
    requires j < |ps| && CanPushAll(walls, ps, ps[j], d) && k in RunIndices(ps, j, d)
    ensures k < |ps| && CanGo(walls, ps[k], d)
    decreases MaxProgress(ps, d) - Progress(ps[j], d)
  {
    RunIndicesAhead(ps, j, d, k);
    if k != j {
      CanPushAllRun(walls, ps, FirstAt(ps, Neighbour(ps[j], d)), d, k);
    }
  }

  /** With the checked rule no robot is ever moved across a walled edge, and
      the move stays all or nothing. */
  lemma MoveAllRespectsWalls(walls: WallLayer, ps: seq<Pos>, i: nat, d: Direction)
    requires i < |ps|
    ensures |MoveAll(walls, ps, i, d)| == |ps|
    ensures forall k :: 0 <= k < |ps| ==>
      MoveAll(walls, ps, i, d)[k] == ps[k] || (MoveAll(walls, ps, i, d)[k] == Neighbour(ps[k], d) && CanGo(walls, ps[k], d))
    ensures MoveAll(walls, ps, i, d)[i] == ps[i] ==> MoveAll(walls, ps, i, d) == ps
  {
    var q := Neighbour(ps[i], d);
    if CanGo(walls, ps[i], d) && q in ps && CanPushAll(walls, ps, q, d) {
      var j := FirstAt(ps, q);
      PushMovesRun(ps, j, d);
      forall k | 0 <= k < |ps| && k in RunIndices(ps, j, d)
        ensures CanGo(walls, ps[k], d)
      {
        CanPushAllRun(walls, ps, j, d, k);
      }
    }
  }

  /** The code's rule lets a robot in the middle of a line be pushed through
      a wall: robot 0 at (0,0) pushes east, robot 1 at (1,0) has a wall on
      its east side, robot 2 at (2,0) has open ground ahead. All three move,
      robot 1 across the wall; the checked rule moves nobody. */
  lemma PushThroughWall()
    ensures var walls := map[Pos(1, 0) := 23];
            var ps := [Pos(0, 0), Pos(1, 0), Pos(2, 0)];
            !CanGo(walls, Pos(1, 0), East) &&
            Move(walls, ps, 0, East) == [Pos(1, 0), Pos(2, 0), Pos(3, 0)] &&
            MoveAll(walls, ps, 0, East) == ps
  {
    var walls := map[Pos(1, 0) := 23];
    var ps := [Pos(0, 0), Pos(1, 0), Pos(2, 0)];
    assert CanGo(walls, Pos(0, 0), East);
    assert CanGo(walls, Pos(2, 0), East);
    assert !CanGo(walls, Pos(1, 0), East);
    assert FirstAt(ps, Pos(1, 0)) == 1 && FirstAt(ps, Pos(2, 0)) == 2;
    assert Pos(3, 0) !in ps;
    assert CanPush(walls, ps, Pos(1, 0), East);
    assert Push(ps, 2, East) == [Pos(0, 0), Pos(1, 0), Pos(3, 0)];
    assert !CanPushAll(walls, ps, Pos(1, 0), East);
  }
}
