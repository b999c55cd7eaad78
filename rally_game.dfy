/** The turn engine of the game: elimination and respawn, playing a card,
    the two-stage belt phase, the laser phases and the order of the phases
    within a register. The game's list of robots in play is the board's own
    list (the game holds the same list object), so the model keeps it in
    `board.players` only. */
module RallyGame {
  import opened Wrappers
  import opened Geometry
  import opened Walls
  import opened Pushing
  import opened Terrain
  import opened Cards
  import opened Robots

  // ---------------------------------------------------------------------
  // Lists of robots

  /** The robots among the first `n` of `rs` whose flag in `fl` equals
      `want`, in list order. */
  function Picked(rs: seq<Player>, fl: seq<bool>, want: bool, n: nat): seq<Player>
    requires |fl| == |rs| && n <= |rs|
  {
    if n == 0 then [] else Picked(rs, fl, want, n - 1) + if fl[n - 1] == want then [rs[n - 1]] else []
  }

  /** The robots of `rs` whose flag in `fl` equals `want`, in list order. */
  function Select(rs: seq<Player>, fl: seq<bool>, want: bool): seq<Player>
    requires |fl| == |rs|
  {
    Picked(rs, fl, want, |rs|)
  }

  /** Every robot picked is one of the first `n` carrying flag `want`, and
      every such robot is picked. */
  lemma {:induction false} PickedMembers(rs: seq<Player>, fl: seq<bool>, want: bool, n: nat)
    requires |fl| == |rs| && n <= |rs|
    ensures forall x :: x in Picked(rs, fl, want, n) ==> exists k :: 0 <= k < n && rs[k] == x && fl[k] == want
    ensures forall k :: 0 <= k < n && fl[k] == want ==> rs[k] in Picked(rs, fl, want, n)
  {
    if n > 0 {
      PickedMembers(rs, fl, want, n - 1);
    }
  }

  /** Picking from a list without repeats gives a list without repeats. */
  lemma {:induction false} PickedUnique(rs: seq<Player>, fl: seq<bool>, want: bool, n: nat)
    requires |fl| == |rs| && n <= |rs| && Unique(rs)
    ensures Unique(Picked(rs, fl, want, n))
  {
    if n > 0 {
      PickedUnique(rs, fl, want, n - 1);
      if fl[n - 1] == want {
        PickedMembers(rs, fl, want, n - 1);
        assert rs[n - 1] !in rs[..n - 1];
        forall k | 0 <= k < n - 1
          ensures rs[k] != rs[n - 1]
        {
          assert rs[k] in rs[..n - 1];
        }
        UniqueAppend(Picked(rs, fl, want, n - 1), rs[n - 1]);
      }
    }
  }

  /** In a list without repeats no robot carries both flags, so the two
      selections share no robot. */
  lemma SelectApart(rs: seq<Player>, fl: seq<bool>, x: Player)
    requires |fl| == |rs| && Unique(rs)
    ensures !(x in Select(rs, fl, true) && x in Select(rs, fl, false))
  {
    PickedMembers(rs, fl, true, |rs|);
    PickedMembers(rs, fl, false, |rs|);
    forall a, b | 0 <= a < |rs| && 0 <= b < |rs| && fl[a] && !fl[b]
      ensures rs[a] != rs[b]
    {
      UniqueApart(rs, a, b);
    }
  }

  /** The robots among the first `n` of `rs` that are not in `xs`. */
  function Kept(rs: seq<Player>, xs: seq<Player>, n: nat): seq<Player>
    requires n <= |rs|
  {
    if n == 0 then [] else Kept(rs, xs, n - 1) + if rs[n - 1] in xs then [] else [rs[n - 1]]
  }

  /** `ArrayList.removeAll`: the robots of `rs` that are not in `xs`. */
  function Without(rs: seq<Player>, xs: seq<Player>): seq<Player> {
    Kept(rs, xs, |rs|)
  }

  /** Removing the robots flagged `true` from a list without repeats
      leaves the robots flagged `false`, in their order. */
  lemma {:induction false} WithoutPicked(rs: seq<Player>, fl: seq<bool>, n: nat)
    requires |fl| == |rs| && n <= |rs| && Unique(rs)
    ensures Kept(rs, Select(rs, fl, true), n) == Picked(rs, fl, false, n)
  {
    if n > 0 {
      WithoutPicked(rs, fl, n - 1);
      PickedMembers(rs, fl, true, |rs|);
      forall k | 0 <= k < |rs| && k != n - 1
        ensures rs[k] != rs[n - 1]
      {
        UniqueApart(rs, k, n - 1);
      }
    }
  }

  /** Removing the robots flagged `true` leaves those flagged `false`. */
  lemma WithoutSelected(rs: seq<Player>, fl: seq<bool>)
    requires |fl| == |rs| && Unique(rs)
    ensures Without(rs, Select(rs, fl, true)) == Select(rs, fl, false)
  {
    WithoutPicked(rs, fl, |rs|);
  }

  // ---------------------------------------------------------------------
  // Elimination

  /** A robot with ten or more damage tokens, or off the board or on a hole,
      is out of play. */
  predicate Lost(board: Board, damage: int, p: Pos) {
    damage >= 10 || board.OutsideBoard(p)
  }

  /** Which robots in play are out, in list order. */
  ghost function LostFlags(board: Board): (fl: seq<bool>)
    reads board, board.players
    ensures |fl| == |board.players|
    ensures forall k :: 0 <= k < |fl| ==>
      fl[k] == Lost(board, board.players[k].damageTokens, board.players[k].position)
  {
    seq(|board.players|, k requires 0 <= k < |board.players| reads board, board.players =>
      Lost(board, board.players[k].damageTokens, board.players[k].position))
  }

  /** Two lists without repeats and without a common robot join into a
      list without repeats. */
  lemma UniqueConcat(a: seq<Player>, b: seq<Player>)
    requires Unique(a) && Unique(b)
    requires forall r :: r in b ==> r !in a
    ensures Unique(a + b)
  {
    var s := a + b;
    forall i | 0 <= i < |s|
      ensures s[i] !in s[..i]
    {
      if i < |a| {
        assert s[..i] == a[..i];
      } else {
        assert s[..i] == a + b[..i - |a|];
        assert s[i] == b[i - |a|];
      }
    }
  }

  /** Splitting a list without repeats by flag, and appending the
      `true` part to a disjoint waiting list, keeps every list without
      repeats and the two lists disjoint. */
  lemma KeptAndRemoved(rs: seq<Player>, fl: seq<bool>, waiting: seq<Player>)
    requires |fl| == |rs| && Unique(rs) && Unique(waiting)
    requires forall r :: r in waiting ==> r !in rs
    ensures Unique(Select(rs, fl, false)) && Unique(waiting + Select(rs, fl, true))
    ensures forall r :: r in waiting + Select(rs, fl, true) ==> r !in Select(rs, fl, false)
  {
    PickedUnique(rs, fl, false, |rs|);
    PickedUnique(rs, fl, true, |rs|);
    PickedMembers(rs, fl, true, |rs|);
    PickedMembers(rs, fl, false, |rs|);
    UniqueConcat(waiting, Select(rs, fl, true));
    forall r | r in waiting + Select(rs, fl, true)
      ensures r !in Select(rs, fl, false)
    {
      SelectApart(rs, fl, r);
    }
  }

  // ---------------------------------------------------------------------
  // Respawn

  /** Which robots of a list are still alive, in list order. */
  ghost function AliveFlags(rs: seq<Player>): (fl: seq<bool>)
    reads rs
    ensures |fl| == |rs|
    ensures forall k :: 0 <= k < |fl| ==> fl[k] == !rs[k].IsDead()
  {
    seq(|rs|, k requires 0 <= k < |rs| reads rs => !rs[k].IsDead())
  }

  // ---------------------------------------------------------------------
  // Playing a card

  /** The place of robot `r` in `rs` (its only place when `rs` has no
      repeats). */
  function FirstIndex(rs: seq<Player>, r: Player): (i: nat)
    requires r in rs
    ensures i < |rs| && rs[i] == r
  {
    if rs[0] == r then 0 else 1 + FirstIndex(rs[1..], r)
  }

  /** How often a `for` loop up to `distance` runs. */
  function Steps(distance: int): nat {
    if distance < 0 then 0 else distance
  }

  /** The cells of the robots after robot `j` makes `n` single-cell moves
      in direction `d`, each pushing the line ahead when it can. */
  function MoveSteps(walls: WallLayer, ps: seq<Pos>, j: nat, d: Direction, n: nat): (r: seq<Pos>)
    requires j < |ps|
    ensures |r| == |ps|
  {
    if n == 0 then ps else MoveAll(walls, MoveSteps(walls, ps, j, d, n - 1), j, d)
  }

  /** `q` lies at most `n` cells from `p`, straight along `d`. */
  ghost predicate WithinSteps(q: Pos, p: Pos, d: Direction, n: nat) {
    exists m: nat :: m <= n && q == Shift(p, d, m)
  }

  /** A move card of distance `n` carries every robot at most `n` cells,
      straight along `d`. */
  lemma {:induction false} MoveStepsBounded(walls: WallLayer, ps: seq<Pos>, j: nat, d: Direction, n: nat)
    requires j < |ps|
    ensures forall k :: 0 <= k < |ps| ==> WithinSteps(MoveSteps(walls, ps, j, d, n)[k], ps[k], d, n)
  {
    if n == 0 {
      forall k | 0 <= k < |ps|
        ensures WithinSteps(MoveSteps(walls, ps, j, d, 0)[k], ps[k], d, 0)
      {
        assert MoveSteps(walls, ps, j, d, 0)[k] == Shift(ps[k], d, 0);
      }
    } else {
      var before := MoveSteps(walls, ps, j, d, n - 1);
      MoveStepsBounded(walls, ps, j, d, n - 1);
      MoveAllRespectsWalls(walls, before, j, d);
      forall k | 0 <= k < |ps|
        ensures WithinSteps(MoveSteps(walls, ps, j, d, n)[k], ps[k], d, n)
      {
        assert WithinSteps(before[k], ps[k], d, n - 1);
        var m0: nat :| m0 <= n - 1 && before[k] == Shift(ps[k], d, m0);
        var after := MoveSteps(walls, ps, j, d, n);
        assert after == MoveAll(walls, before, j, d);
        if after[k] == before[k] {
          assert after[k] == Shift(ps[k], d, m0);
        } else {
          assert after[k] == Shift(ps[k], d, m0 + 1);
        }
      }
    }
  }

  /** On an open floor a lone robot playing a move card of distance `n`
      ends exactly `n` cells ahead. */
  lemma {:induction false} LoneRobotSteps(p: Pos, d: Direction, n: nat)
    ensures MoveSteps(map[], [p], 0, d, n) == [Shift(p, d, n)]
  {
    if n > 0 {
      LoneRobotSteps(p, d, n - 1);
      var q := Shift(p, d, n - 1);
      assert CanGo(map[], q, d);
      assert Neighbour(q, d) != q;
    }
  }

  // ---------------------------------------------------------------------
  // Belts

  /** What the belt phase tracks for one robot: its facing, the direction
      of its last belt push and the cell the belts mean to carry it to. */
  datatype Intent = Intent(facing: Direction, dir: Option<Direction>, pos: Option<Pos>)

  /** One `beltPush` of a robot standing at `p` by a belt running in
      direction `d`: it turns as the belt-turn table says, remembers `d` and
      means to go to the next cell along `d`. It does not move yet. */
  function BeltStep(st: Intent, p: Pos, d: Direction): Intent {
    Intent(Turn(st.facing, BeltTurn(st.dir, d)), Some(d), Some(Neighbour(p, d)))
  }

  /** The pushes of every belt of `bs` that lies on `p`, in list order. */
  function Carry(st: Intent, p: Pos, bs: seq<Belt>): Intent {
    if |bs| == 0 then st
    else
      var before := Carry(st, p, bs[..|bs| - 1]);
      var b := bs[|bs| - 1];
      if b.position == p then BeltStep(before, p, b.direction) else before
  }

  /** A robot off every belt keeps its intent; a robot on exactly one belt
      gets that belt's push, turn included. */
  lemma {:induction false} CarryOneBelt(st: Intent, p: Pos, bs: seq<Belt>, m: int)
    requires m == -1 || (0 <= m < |bs| && bs[m].position == p)
    requires forall k :: 0 <= k < |bs| && k != m ==> bs[k].position != p
    ensures Carry(st, p, bs) == if m == -1 then st else BeltStep(st, p, bs[m].direction)
  {
    if |bs| > 0 {
      var n := |bs| - 1;
      if m == n {
        CarryOneBelt(st, p, bs[..n], -1);
      } else {
        CarryOneBelt(st, p, bs[..n], m);
      }
    }
  }

  /** Robot `k` means to go to a cell that a robot with another number
      also means to go to. */
  predicate Clash(ns: seq<int>, qs: seq<Option<Pos>>, k: int)
    requires |ns| == |qs| && 0 <= k < |qs|
  {
    qs[k].Some? && exists m :: 0 <= m < |qs| && ns[m] != ns[k] && qs[m] == qs[k]
  }

  /** `validateBeltPushPos`, as intended: every intent that another robot
      (one with another number) shares is cancelled; the rest stand. */
  function Validated(ns: seq<int>, qs: seq<Option<Pos>>): (r: seq<Option<Pos>>)
    requires |ns| == |qs|
    ensures |r| == |qs|
  {
    seq(|qs|, k requires 0 <= k < |qs| => if Clash(ns, qs, k) then None else qs[k])
  }

  /** After validation no two robots with different numbers mean to go to
      the same cell, and an intent is cancelled exactly when it clashed. */
  lemma ValidatedApart(ns: seq<int>, qs: seq<Option<Pos>>)
    requires |ns| == |qs|
    ensures var v := Validated(ns, qs);
      forall a, b :: 0 <= a < |v| && 0 <= b < |v| && ns[a] != ns[b] && v[a].Some? ==> v[a] != v[b]
    ensures var v := Validated(ns, qs);
      forall k :: 0 <= k < |v| ==> (v[k] == qs[k] <==> !Clash(ns, qs, k) || qs[k].None?)
  {
    var v := Validated(ns, qs);
    forall a, b | 0 <= a < |v| && 0 <= b < |v| && ns[a] != ns[b] && v[a].Some?
      ensures v[a] != v[b]
    {
      if v[a] == v[b] {
        assert qs[b] == qs[a];
        assert Clash(ns, qs, a);
        assert false;
      }
    }
  }

  /** A second validation changes nothing. */
  lemma ValidatedIdempotent(ns: seq<int>, qs: seq<Option<Pos>>)
    requires |ns| == |qs|
    ensures Validated(ns, Validated(ns, qs)) == Validated(ns, qs)
  {
    var v := Validated(ns, qs);
    ValidatedApart(ns, qs);
    forall k | 0 <= k < |v|
      ensures !Clash(ns, v, k)
    {
      if v[k].Some? {
        forall m | 0 <= m < |v| && ns[m] != ns[k]
          ensures v[m] != v[k]
        {
        }
      }
    }
  }

  /** `validateBeltPushPos` as written: for each robot and each other robot
      with another number it calls `equals` on the first robot's intent,
      cancelling both intents when they match. An intent that is already
      null makes that call fail, which is `None` here. */
  function ValidateAsWritten(ns: seq<int>, qs: seq<Option<Pos>>, i: nat, j: nat): Option<seq<Option<Pos>>>
    requires |ns| == |qs| && j <= |qs|
    decreases |qs| - i, |qs| - j
  {
    if i >= |qs| then Some(qs)
    else if j == |qs| then ValidateAsWritten(ns, qs, i + 1, 0)
    else if ns[i] == ns[j] then ValidateAsWritten(ns, qs, i, j + 1)
    else if qs[i].None? then None
    else if qs[i] == qs[j] then ValidateAsWritten(ns, qs[i := None][j := None], i, j + 1)
    else ValidateAsWritten(ns, qs, i, j + 1)
  }

  /** Two robots, the first on no belt: the code fails on the first
      robot's missing intent, where nothing needs cancelling. Three robots
      meaning to go to one cell: the code cancels the first two and then
      fails on the first robot's now missing intent, where all three should
      be cancelled. */
  lemma ValidateAsWrittenFails()
    ensures ValidateAsWritten([1, 2], [None, Some(Pos(0, 0))], 0, 0) == None
    ensures Validated([1, 2], [None, Some(Pos(0, 0))]) == [None, Some(Pos(0, 0))]
    ensures var x := Some(Pos(0, 0));
      ValidateAsWritten([1, 2, 3], [x, x, x], 0, 0) == None &&
      Validated([1, 2, 3], [x, x, x]) == [None, None, None]
  {
    var x := Some(Pos(0, 0));
    assert !Clash([1, 2], [None, x], 0);
    assert forall m :: 0 <= m < 2 && [1, 2][m] != 2 ==> m == 0;
    assert !Clash([1, 2], [None, x], 1);
    assert ValidateAsWritten([1, 2, 3], [None, None, x], 0, 2) == None;
    assert ValidateAsWritten([1, 2, 3], [x, x, x], 0, 1) == None;
    assert Clash([1, 2, 3], [x, x, x], 0) && Clash([1, 2, 3], [x, x, x], 1) && Clash([1, 2, 3], [x, x, x], 2);
  }

  /** The intents' target cells. */
  function Targets(cs: seq<Intent>): (qs: seq<Option<Pos>>)
    ensures |qs| == |cs|
  {
    seq(|cs|, k requires 0 <= k < |cs| => cs[k].pos)
  }

  /** The robots' numbers, in list order. */
  function Numbers(rs: seq<Player>): (ns: seq<int>)
    ensures |ns| == |rs|
  {
    seq(|rs|, k requires 0 <= k < |rs| => rs[k].playerNumber)
  }

  /** The belt phase's state of a robot. */
  function IntentOf(r: Player): Intent
    reads r`direction, r`beltPushDir, r`beltPushPos
  {
    Intent(r.direction, r.beltPushDir, r.beltPushPos)
  }

  /** The robots' intended cells, in list order. */
  ghost function PushTargets(rs: seq<Player>): (qs: seq<Option<Pos>>)
    reads rs
    ensures |qs| == |rs|
    ensures forall k :: 0 <= k < |rs| ==> qs[k] == rs[k].beltPushPos
  {
    seq(|rs|, k requires 0 <= k < |rs| reads rs => rs[k].beltPushPos)
  }

  /** Every robot's state after the belts of `bs` under it have pushed it. */
  ghost function Carried(rs: seq<Player>, bs: seq<Belt>): (cs: seq<Intent>)
    reads rs
    ensures |cs| == |rs|
    ensures forall k :: 0 <= k < |rs| ==> cs[k] == Carry(IntentOf(rs[k]), rs[k].position, bs)
  {
    seq(|rs|, k requires 0 <= k < |rs| reads rs => Carry(IntentOf(rs[k]), rs[k].position, bs))
  }

  // ---------------------------------------------------------------------
  // Lasers

  /** The robots' facings, in list order. */
  ghost function Facings(rs: seq<Player>): (fs: seq<Direction>)
    reads rs`direction
    ensures |fs| == |rs|
    ensures forall k {:trigger fs[k]} :: 0 <= k < |rs| ==> fs[k] == rs[k].direction
  {
    if |rs| == 0 then [] else [rs[0].direction] + Facings(rs[1..])
  }

  /** The damage tokens after the first `n` robots, standing on `ps` and
      facing `fs`, have fired in list order. No robot moves while they
      fire, so every shot is aimed over the same cells. */
  function Volley(board: Board, ps: seq<Pos>, fs: seq<Direction>, ds: seq<int>, n: nat): (r: seq<int>)
    requires |fs| == |ps| && n <= |ps|
    ensures |r| == |ds|
  {
    if n == 0 then ds else Hit(Volley(board, ps, fs, ds, n - 1), board.ShotHits(ps, ps[n - 1], fs[n - 1]))
  }

  /** The laser overlay after those `n` robots have fired. */
  function Lit(board: Board, layer: map<Pos, int>, ps: seq<Pos>, fs: seq<Direction>, n: nat): map<Pos, int>
    requires |fs| == |ps| && n <= |ps|
  {
    if n == 0 then layer
    else Overlay(Lit(board, layer, ps, fs, n - 1), board.Shot(ps, ps[n - 1], fs[n - 1]), fs[n - 1], board.width, board.height)
  }

  /** How many of those `n` shots hit a robot. */
  function HitCount(board: Board, ps: seq<Pos>, fs: seq<Direction>, n: nat): nat
    requires |fs| == |ps| && n <= |ps|
  {
    if n == 0 then 0 else HitCount(board, ps, fs, n - 1) + if board.ShotHits(ps, ps[n - 1], fs[n - 1]).Some? then 1 else 0
  }

  /** The damage tokens of all robots together. */
  function Total(ds: seq<int>): int {
    if |ds| == 0 then 0 else Total(ds[..|ds| - 1]) + ds[|ds| - 1]
  }

  /** Raising one entry by one raises the total by one. */
  lemma {:induction false} TotalBump(ds: seq<int>, k: nat)
    requires k < |ds|
    ensures Total(ds[k := ds[k] + 1]) == Total(ds) + 1
  {
    var n := |ds| - 1;
    var e := ds[k := ds[k] + 1];
    assert e[..n] == if k == n then ds[..n] else ds[..n][k := ds[k] + 1];
    if k < n {
      TotalBump(ds[..n], k);
    }
  }

  /** A robot never hits itself: its beam starts on the cell ahead of it
      and only moves further on. */
  lemma NoSelfHit(board: Board, ps: seq<Pos>, k: nat, d: Direction)
    requires k < |ps|
    ensures board.ShotHits(ps, ps[k], d) != Some(k)
  {
    var p := ps[k];
    if board.CanFire(p, d) {
      var q := Neighbour(p, d);
      board.BeamCells(ps, q, d);
      var beam := board.Beam(ps, q, d);
      assert Progress(beam[|beam| - 1], d) > Progress(p, d);
    }
  }

  /** Every shot that hits adds exactly one damage token in all: the
      robots' damage grows by the number of hits. */
  lemma {:induction false} VolleyTotal(board: Board, ps: seq<Pos>, fs: seq<Direction>, ds: seq<int>, n: nat)
    requires |fs| == |ps| == |ds| && n <= |ps|
    ensures Total(Volley(board, ps, fs, ds, n)) == Total(ds) + HitCount(board, ps, fs, n)
  {
    if n > 0 {
      VolleyTotal(board, ps, fs, ds, n - 1);
      var before, t := Volley(board, ps, fs, ds, n - 1), board.ShotHits(ps, ps[n - 1], fs[n - 1]);
      var bump := if t.Some? then 1 else 0;
      TotalHit(before, t);
      assert Volley(board, ps, fs, ds, n) == Hit(before, t);
      assert HitCount(board, ps, fs, n) == HitCount(board, ps, fs, n - 1) + bump;
      assert Total(Hit(before, t)) == Total(before) + bump;
    }
  }

  /** One shot adds one token in all when it hits a robot, none otherwise. */
  lemma {:induction false} TotalHit(ds: seq<int>, t: Option<nat>)
    requires t.Some? ==> t.value < |ds|
    ensures Total(Hit(ds, t)) == Total(ds) + if t.Some? then 1 else 0
  {
    if t.Some? {
      TotalBump(ds, t.value);
    }
  }

  /** No robot's damage falls while the robots fire. */
  lemma {:induction false} VolleyGrows(board: Board, ps: seq<Pos>, fs: seq<Direction>, ds: seq<int>, n: nat)
    requires |fs| == |ps| && n <= |ps|
    ensures forall k :: 0 <= k < |ds| ==> Volley(board, ps, fs, ds, n)[k] >= ds[k]
  {
    if n > 0 {
      VolleyGrows(board, ps, fs, ds, n - 1);
    }
  }

  /** The laser overlay after the first `n` board lasers have fired over a
      board whose robots stand on `ps`. */
  function LasersLit(board: Board, layer: map<Pos, int>, ps: seq<Pos>, lasers: seq<Laser>, n: nat): map<Pos, int>
    requires n <= |lasers|
    requires forall l :: l in lasers ==> Inside(l.position, board.width, board.height)
  {
    if n == 0 then layer
    else
      var l := lasers[n - 1];
      Overlay(LasersLit(board, layer, ps, lasers, n - 1), board.Beam(ps, l.position, l.direction), l.direction, board.width, board.height)
  }

  // ---------------------------------------------------------------------
  // The game

  class Game {
    const board: Board
    /** The robots taken out of play this turn, waiting for the end-of-turn respawn. */
    var respawnPlayers: seq<Player>
    /** The deck's discard pile. */
    var discardPile: seq<ProgramCard>

    constructor (board: Board)
      ensures this.board == board && respawnPlayers == [] && discardPile == []
    {
      this.board := board;
      respawnPlayers := [];
      discardPile := [];
    }

    /** No robot is listed twice, in play or waiting, and none is both. */
    predicate Valid()
      reads this, board
    {
      Unique(board.players) && Unique(respawnPlayers) &&
      forall r :: r in respawnPlayers ==> r !in board.players
    }

    /** The body of `decreaseLives` for robot `k`: one life fewer and its
        damage repaired; no other robot changes. */
    method Eliminate(k: nat)
      requires k < |board.players| && Unique(board.players)
      modifies board.players`lifeTokens, board.players`damageTokens
      ensures board.players[k].lifeTokens == old(board.players[k].lifeTokens) - 1
      ensures board.players[k].damageTokens == 0
      ensures forall i :: 0 <= i < |board.players| && i != k ==>
        board.players[i].lifeTokens == old(board.players[i].lifeTokens) &&
        board.players[i].damageTokens == old(board.players[i].damageTokens)
    {
      var player := board.players[k];
      player.DecrementLifeTokens();
      player.ResetDamageTokens();
      forall i | 0 <= i < |board.players| && i != k
        ensures board.players[i] != player
      {
        UniqueApart(board.players, i, k);
      }
    }

    /** The loop of `decreaseLives`: every robot in play with ten or more
        damage tokens, or off the board or on a hole, loses a life and has
        its damage repaired; those robots are returned in list order. */
    method EliminateLost() returns (removed: seq<Player>)
      requires Unique(board.players)
      modifies board.players`lifeTokens, board.players`damageTokens
      ensures var rs, fl := board.players, old(LostFlags(board));
        removed == Select(rs, fl, true) &&
        forall k :: 0 <= k < |rs| ==>
          rs[k].lifeTokens == old(rs[k].lifeTokens) - (if fl[k] then 1 else 0) &&
          rs[k].damageTokens == (if fl[k] then 0 else old(rs[k].damageTokens))
    {
      ghost var rs := board.players;
      ghost var fl := LostFlags(board);
      removed := [];
      var i := 0;
      while i < |board.players|
        invariant 0 <= i <= |rs|
        invariant removed == Picked(rs, fl, true, i)
        invariant forall k :: 0 <= k < |rs| ==>
          rs[k].lifeTokens == old(rs[k].lifeTokens) - (if k < i && fl[k] then 1 else 0) &&
          rs[k].damageTokens == (if k < i && fl[k] then 0 else old(rs[k].damageTokens))
      {
        var player := board.players[i];
        var lost := player.damageTokens >= 10 || board.OutsideBoard(player.position);
        assert lost == fl[i];
        if lost {
          Eliminate(i);
          removed := removed + [player];
        }
        i := i + 1;
      }
    }

    /** The robots of `removed` leave play and join the robots waiting to
        respawn. */
    method Retire(removed: seq<Player>)
      modifies this`respawnPlayers, board`players
      ensures board.players == Without(old(board.players), removed)
      ensures respawnPlayers == old(respawnPlayers) + removed
    {
      board.players := Without(board.players, removed);
      respawnPlayers := respawnPlayers + removed;
    }

    /** `decreaseLives`: every robot in play with ten or more damage tokens,
        or off the board or on a hole, loses a life, has its damage
        repaired and moves, in list order, from the robots in play to the
        robots waiting to respawn; the others are untouched. Afterwards no
        robot in play is lost. */
    method DecreaseLives()
      requires Valid()
      modifies this`respawnPlayers, board`players, board.players`lifeTokens, board.players`damageTokens
      ensures Valid()
      ensures var rs, fl := old(board.players), old(LostFlags(board));
        board.players == Select(rs, fl, false) &&
        respawnPlayers == old(respawnPlayers) + Select(rs, fl, true) &&
        forall k :: 0 <= k < |rs| ==>
          rs[k].lifeTokens == old(rs[k].lifeTokens) - (if fl[k] then 1 else 0) &&
          rs[k].damageTokens == (if fl[k] then 0 else old(rs[k].damageTokens))
      ensures forall r :: r in board.players ==> !Lost(board, r.damageTokens, r.position)
      ensures forall k :: 0 <= k < |board.players| ==> board.players[k] in old(board.players)
    {
      ghost var rs := board.players;
      ghost var fl := LostFlags(board);
      ghost var waiting := respawnPlayers;
      var removed := EliminateLost();
      WithoutSelected(rs, fl);
      KeptAndRemoved(rs, fl, waiting);
      Retire(removed);
      forall r | r in board.players
        ensures !Lost(board, r.damageTokens, r.position) && r in rs
      {
        PickedMembers(rs, fl, false, |rs|);
        var k :| 0 <= k < |rs| && rs[k] == r && !fl[k];
      }
    }

    /** `respawnPlayers`: every waiting robot that still has a life rejoins
        play, in list order, and respawns on its backup cell (or an
        alternative); the dead ones stay out. Nobody waits afterwards. */
    method RespawnPlayers()
      requires Valid() && board.GroundCovers()
      requires forall r :: r in respawnPlayers ==> board.HasStart(r.playerNumber)
      modifies this`respawnPlayers, board`players
      modifies respawnPlayers`position, respawnPlayers`direction
      modifies respawnPlayers`alternativeBackupPosition, respawnPlayers`alternativeBackupDirection
      ensures Valid() && respawnPlayers == []
      ensures board.players == old(board.players) + Select(old(respawnPlayers), old(AliveFlags(respawnPlayers)), true)
      ensures forall r :: r in old(respawnPlayers) && r.IsDead() ==> r !in board.players
      ensures forall r :: r in Select(old(respawnPlayers), old(AliveFlags(respawnPlayers)), true) ==> r.Respawned()
    {
      ghost var rs := respawnPlayers;
      ghost var fl := AliveFlags(rs);
      ghost var before := board.players;
      var i := 0;
      while i < |respawnPlayers|
        invariant respawnPlayers == rs && 0 <= i <= |rs|
        invariant board.players == before + Picked(rs, fl, true, i)
        invariant board.Distinct()
        invariant forall k :: 0 <= k < i && fl[k] ==> rs[k].Respawned()
      {
        var player := respawnPlayers[i];
        if !player.IsDead() {
          PickedMembers(rs, fl, true, i);
          forall k | 0 <= k < i
            ensures rs[k] != player
          {
            UniqueApart(rs, k, i);
          }
          Rejoin(player);
        }
        i := i + 1;
      }
      respawnPlayers := [];
      PickedMembers(rs, fl, true, |rs|);
      forall r | r in rs && r.IsDead()
        ensures r !in board.players
      {
        PickedMembers(rs, fl, true, |rs|);
        forall k | 0 <= k < |rs| && rs[k] == r
          ensures !fl[k]
        {
        }
      }
    }

    /** The body of `respawnPlayers` for a living robot: listed again,
        then respawned. */
    method Rejoin(player: Player)
      requires board.Distinct() && player !in board.players
      requires board.GroundCovers() && board.HasStart(player.playerNumber)
      modifies board`players, player`position, player`direction
      modifies player`alternativeBackupPosition, player`alternativeBackupDirection
      ensures board.players == old(board.players) + [player] && board.Distinct()
      ensures player.Respawned()
      ensures var b := player.backupPosition;
        old(b !in PositionsOf(board.players) && b != player.position) ==>
        player.position == b && player.direction == player.backupDirection
      ensures var b := player.backupPosition;
        old(b in PositionsOf(board.players) || b == player.position) ==>
        player.alternativeBackupPosition == Some(player.position) &&
        player.alternativeBackupDirection == Some(player.direction)
    {
      UniqueAppend(board.players, player);
      PositionsOfAppend(board.players, player);
      board.players := board.players + [player];
      board.Respawn(player);
    }

    /** One `movePlayer(player)` of a move card for the robot listed at
        index `j`: the robots' cells become those of `MoveAll`, one more
        step of the card that started from the cells `start`. */
    method Step(j: nat, d: Direction, ghost start: seq<Pos>, ghost i: nat)
      requires j < |board.players| && board.Distinct() && board.players[j].direction == d
      requires |start| == |board.players| && PositionsOf(board.players) == MoveSteps(board.walls, start, j, d, i)
      modifies board`players, board.players`position, board.players`beltPushDir
      ensures board.players == old(board.players) && board.Distinct()
      ensures PositionsOf(board.players) == MoveAll(board.walls, old(PositionsOf(board.players)), j, d)
      ensures PositionsOf(board.players) == MoveSteps(board.walls, start, j, d, i + 1)
    {
      ghost var ps := PositionsOf(board.players);
      var player := board.players[j];
      board.MovePlayer(player, false);
      forall k | 0 <= k < |ps|
        ensures board.players[k].position == MoveAll(board.walls, ps, j, d)[k]
      {
        if k != j {
          UniqueApart(board.players, k, j);
        }
      }
    }

    /** `playCard`: a turn card only turns the robot; a move card moves it
        `distance` single cells along its facing, pushing the line ahead.
        Either way the robot ends up listed and the card goes to the
        discard pile. */
    method PlayCard(player: Player, card: ProgramCard)
      requires board.Distinct()
      modifies player`direction, board`players, board.players`position, board.players`beltPushDir
      modifies player`position, player`beltPushDir, this`discardPile
      ensures board.Distinct()
      ensures discardPile == old(discardPile) + [card]
      ensures board.players == old(board.players) + if player in old(board.players) then [] else [player]
      ensures player.direction == Turn(old(player.direction), card.rotate)
      ensures card.rotate != NoRotate ==> player.position == old(player.position)
      ensures card.rotate == NoRotate && old(player in board.players) ==>
        var j := FirstIndex(old(board.players), player);
        PositionsOf(board.players) ==
          MoveSteps(board.walls, old(PositionsOf(board.players)), j, player.direction, Steps(card.distance))
    {
      match card.rotate {
        case Right => player.direction := player.direction.TurnRight();
        case Left => player.direction := player.direction.TurnLeft();
        case UTurn => player.direction := player.direction.TurnAround();
        case NoRotate => MoveCard(player, card.distance);
      }
      board.AddPlayer(player);
      discardPile := discardPile + [card];
    }

    /** The loop of a move card: `distance` calls of `movePlayer`. */
    method MoveCard(player: Player, distance: int)
      requires board.Distinct()
      modifies board`players, board.players`position, board.players`beltPushDir
      modifies player`position, player`beltPushDir
      ensures board.Distinct()
      ensures board.players == old(board.players) + if player in old(board.players) || distance <= 0 then [] else [player]
      ensures old(player in board.players) ==>
        var j := FirstIndex(old(board.players), player);
        PositionsOf(board.players) ==
          MoveSteps(board.walls, old(PositionsOf(board.players)), j, player.direction, Steps(distance))
    {
      if distance <= 0 {
        return;
      }
      if player in board.players {
        var j := FirstIndex(board.players, player);
        MoveListed(j, distance);
      } else {
        board.MovePlayer(player, false);
        var j := FirstIndex(board.players, player);
        MoveListed(j, distance - 1);
      }
    }

    /** `n` moves of the robot listed at index `j` along its facing. */
    method MoveListed(j: nat, n: nat)
      requires j < |board.players| && board.Distinct()
      modifies board`players, board.players`position, board.players`beltPushDir
      ensures board.players == old(board.players) && board.Distinct()
      ensures PositionsOf(board.players) ==
        MoveSteps(board.walls, old(PositionsOf(board.players)), j, board.players[j].direction, n)
    {
      ghost var ps := PositionsOf(board.players);
      var d := board.players[j].direction;
      var i := 0;
      while i < n
        invariant i <= n && board.players == old(board.players) && board.Distinct()
        invariant board.players[j].direction == d
        invariant PositionsOf(board.players) == MoveSteps(board.walls, ps, j, d, i)
      {
        Step(j, d, ps, i);
        i := i + 1;
      }
    }

    /** `setPlayerDirectionAfterBeltPush`: a right turn when the belt runs
        in `turnRight`, a left turn when it runs in `leftTurn`. */
    method SetPlayerDirectionAfterBeltPush(player: Player, beltDirection: Direction, turnRight: Direction, leftTurn: Direction)
      modifies player`direction
      ensures player.direction ==
        if beltDirection == turnRight then old(player.direction).TurnRight()
        else if beltDirection == leftTurn then old(player.direction).TurnLeft()
        else old(player.direction)
    {
      if beltDirection == turnRight {
        player.direction := player.direction.TurnRight();
      } else if beltDirection == leftTurn {
        player.direction := player.direction.TurnLeft();
      }
    }

    /** `beltPush`: the switch over the last push is the belt-turn table;
        the robot remembers the belt's direction and means to go one cell
        along it, without moving. */
    method BeltPush(player: Player, belt: Belt)
      modifies player`direction, player`beltPushDir, player`beltPushPos
      ensures IntentOf(player) == BeltStep(old(IntentOf(player)), player.position, belt.direction)
    {
      var lastPush := player.beltPushDir;
      var beltDirection := belt.direction;
      if lastPush.Some? {
        match lastPush.value {
          case North => SetPlayerDirectionAfterBeltPush(player, beltDirection, East, West);
          case South => SetPlayerDirectionAfterBeltPush(player, beltDirection, West, East);
          case East => SetPlayerDirectionAfterBeltPush(player, beltDirection, South, North);
          case West => SetPlayerDirectionAfterBeltPush(player, beltDirection, North, South);
        }
      }
      player.beltPushDir := Some(beltDirection);
      player.beltPushPos := Some(Neighbour(player.position, beltDirection));
    }

    /** The inner loop of `activateBelts` for one robot: every belt of
        `belts` on the robot's cell pushes it, in list order. */
    method CarryPlayer(player: Player, belts: seq<Belt>)
      modifies player`direction, player`beltPushDir, player`beltPushPos
      ensures IntentOf(player) == Carry(old(IntentOf(player)), player.position, belts)
    {
      var i := 0;
      while i < |belts|
        invariant 0 <= i <= |belts|
        invariant IntentOf(player) == Carry(old(IntentOf(player)), player.position, belts[..i])
      {
        assert belts[..i + 1][..i] == belts[..i];
        if player.position == belts[i].position {
          BeltPush(player, belts[i]);
        }
        i := i + 1;
      }
      assert belts[..|belts|] == belts;
    }

    /** The outer loop of `activateBelts`: every robot in play is pushed by
        the belts under it. No robot moves yet. */
    method CarryAll(belts: seq<Belt>)
      requires board.Distinct()
      modifies board.players`direction, board.players`beltPushDir, board.players`beltPushPos
      ensures forall k :: 0 <= k < |board.players| ==>
        IntentOf(board.players[k]) == old(Carried(board.players, belts))[k]
    {
      ghost var rs := board.players;
      ghost var cs := Carried(rs, belts);
      var i := 0;
      while i < |board.players|
        invariant 0 <= i <= |rs|
        invariant forall k :: 0 <= k < |rs| ==> IntentOf(rs[k]) == if k < i then cs[k] else old(IntentOf(rs[k]))
      {
        var player := board.players[i];
        CarryPlayer(player, belts);
        forall k | 0 <= k < |rs| && k != i
          ensures rs[k] != player
        {
          UniqueApart(rs, k, i);
        }
        i := i + 1;
      }
    }

    /** Cancels the intent of the robot listed at `k`; no other robot changes. */
    method CancelIntent(k: nat)
      requires k < |board.players| && board.Distinct()
      modifies board.players`beltPushPos
      ensures board.players[k].beltPushPos == None
      ensures forall i :: 0 <= i < |board.players| && i != k ==>
        board.players[i].beltPushPos == old(board.players[i].beltPushPos)
    {
      board.players[k].beltPushPos := None;
      forall i | 0 <= i < |board.players| && i != k
        ensures board.players[i] != board.players[k]
      {
        UniqueApart(board.players, i, k);
      }
    }

    /** Whether the robot listed at `i` clashes: some robot with another
        number means to go to the same cell. */
    method Clashes(i: nat) returns (hit: bool)
      requires i < |board.players|
      ensures hit == Clash(Numbers(board.players), PushTargets(board.players), i)
    {
      ghost var ns, qs := Numbers(board.players), PushTargets(board.players);
      var mine := board.players[i].beltPushPos;
      hit := false;
      var j := 0;
      while j < |board.players|
        invariant 0 <= j <= |board.players|
        invariant hit <==> mine.Some? && exists m :: 0 <= m < j && ns[m] != ns[i] && qs[m] == mine
      {
        var other := board.players[j];
        if board.players[i].playerNumber != other.playerNumber && mine.Some? && mine == other.beltPushPos {
          hit := true;
        }
        j := j + 1;
      }
    }

    /** The first loop of `validateBeltPushPos`, which only looks: which
        robots clash. */
    method FindClashes() returns (clash: seq<bool>)
      ensures |clash| == |board.players|
      ensures forall k :: 0 <= k < |clash| ==> clash[k] == Clash(Numbers(board.players), PushTargets(board.players), k)
    {
      clash := [];
      var i := 0;
      while i < |board.players|
        invariant 0 <= i <= |board.players| && |clash| == i
        invariant forall k :: 0 <= k < i ==> clash[k] == Clash(Numbers(board.players), PushTargets(board.players), k)
      {
        var hit := Clashes(i);
        clash := clash + [hit];
        i := i + 1;
      }
    }

    /** The second loop: the flagged robots lose their intents. */
    method CancelClashes(clash: seq<bool>)
      requires |clash| == |board.players| && board.Distinct()
      modifies board.players`beltPushPos
      ensures forall k :: 0 <= k < |board.players| ==>
        board.players[k].beltPushPos == if clash[k] then None else old(board.players[k].beltPushPos)
    {
      var i := 0;
      while i < |board.players|
        invariant 0 <= i <= |board.players|
        invariant forall k :: 0 <= k < |board.players| ==>
          board.players[k].beltPushPos == if k < i && clash[k] then None else old(board.players[k].beltPushPos)
      {
        if clash[i] {
          CancelIntent(i);
        }
        i := i + 1;
      }
    }

    /** `validateBeltPushPos`, null-safe and decided on the intents as they
        stand before any is cancelled: the intents that clash are found
        first, then cancelled. */
    method ValidateBeltPushPos()
      requires board.Distinct()
      modifies board.players`beltPushPos
      ensures forall k :: 0 <= k < |board.players| ==>
        board.players[k].beltPushPos == Validated(Numbers(board.players), old(PushTargets(board.players)))[k]
    {
      var clash := FindClashes();
      CancelClashes(clash);
    }

    /** Moves the robot listed at `k` to cell `q`; no other robot moves. */
    method PlaceAt(k: nat, q: Pos)
      requires k < |board.players| && board.Distinct()
      modifies board.players`position
      ensures board.players[k].position == q
      ensures forall i :: 0 <= i < |board.players| && i != k ==>
        board.players[i].position == old(board.players[i].position)
    {
      board.players[k].position := q;
      forall i | 0 <= i < |board.players| && i != k
        ensures board.players[i] != board.players[k]
      {
        UniqueApart(board.players, i, k);
      }
    }

    /** `updatePositionsAfterBeltPush`: every robot with an intent moves to
        that cell and drops the intent; the others stay where they are. */
    method UpdatePositionsAfterBeltPush()
      requires board.Distinct()
      modifies board.players`position, board.players`beltPushPos
      ensures forall k :: 0 <= k < |board.players| ==>
        board.players[k].beltPushPos == None &&
        board.players[k].position ==
          if old(board.players[k].beltPushPos).Some? then old(board.players[k].beltPushPos).value
          else old(board.players[k].position)
    {
      var i := 0;
      while i < |board.players|
        invariant 0 <= i <= |board.players|
        invariant forall k :: 0 <= k < |board.players| ==>
          board.players[k].beltPushPos == (if k < i && old(board.players[k].beltPushPos).Some? then None else old(board.players[k].beltPushPos)) &&
          board.players[k].position ==
            if k < i && old(board.players[k].beltPushPos).Some? then old(board.players[k].beltPushPos).value
            else old(board.players[k].position)
      {
        var player := board.players[i];
        if player.beltPushPos.Some? {
          PlaceAt(i, player.beltPushPos.value);
          CancelIntent(i);
        }
        i := i + 1;
      }
    }

    /** The belts a belt phase runs: the express belts only, or all belts. */
    function Belts(onlyExpress: bool): seq<Belt> {
      if onlyExpress then board.expressBelts else board.belts
    }

    /** `activateBelts(onlyExpress)`: the belts under each robot push it
        (turning it at bends), clashing intents are cancelled, and every
        robot with an intent left moves to its cell. Two robots with
        different numbers that the belts move never end on one cell. */
    method ActivateBelts(onlyExpress: bool)
      requires board.Distinct()
      modifies board`players, board.players`position, board.players`direction
      modifies board.players`beltPushDir, board.players`beltPushPos
      ensures board.players == old(board.players)
      ensures var rs := board.players;
        var cs := old(Carried(board.players, Belts(onlyExpress)));
        var v := Validated(Numbers(rs), Targets(cs));
        forall k :: 0 <= k < |rs| ==>
          rs[k].direction == cs[k].facing && rs[k].beltPushDir == cs[k].dir && rs[k].beltPushPos == None &&
          rs[k].position == if v[k].Some? then v[k].value else old(rs[k].position)
      ensures var rs := board.players;
        var v := Validated(Numbers(rs), Targets(old(Carried(board.players, Belts(onlyExpress)))));
        forall a, b ::
          0 <= a < |rs| && 0 <= b < |rs| && v[a].Some? && v[b].Some? && rs[a].playerNumber != rs[b].playerNumber ==>
          rs[a].position != rs[b].position
    {
      ghost var rs := board.players;
      ghost var cs := Carried(rs, Belts(onlyExpress));
      var belts := if onlyExpress then board.expressBelts else board.belts;
      CarryAll(belts);
      assert PushTargets(rs) == Targets(cs);
      ValidateBeltPushPos();
      ValidatedApart(Numbers(rs), Targets(cs));
      UpdatePositionsAfterBeltPush();
      board.UpdateBoard();
    }

    /** `firePlayerLaser`: every robot in play fires once, in list order.
        The overlay gets each robot's beam and each hit robot one damage
        token (see `VolleyTotal`). The sound it plays is not modelled. */
    method FirePlayerLasers()
      requires board.Distinct()
      modifies board`laserLayer, board.players`damageTokens
      ensures var ps, fs := old(PositionsOf(board.players)), old(Facings(board.players));
        board.laserLayer == Lit(board, old(board.laserLayer), ps, fs, |ps|) &&
        DamagesOf(board.players) == Volley(board, ps, fs, old(DamagesOf(board.players)), |ps|)
    {
      ghost var ps, fs := PositionsOf(board.players), Facings(board.players);
      ghost var ds, layer := DamagesOf(board.players), board.laserLayer;
      var i := 0;
      while i < |board.players|
        invariant 0 <= i <= |ps|
        invariant PositionsOf(board.players) == ps
        invariant board.laserLayer == Lit(board, layer, ps, fs, i)
        invariant DamagesOf(board.players) == Volley(board, ps, fs, ds, i)
      {
        FireOne(i, ps, fs, ds, layer);
        i := i + 1;
      }
      assert i == |ps|;
    }

    /** Robot `i` fires: one more shot of `Lit` and `Volley`. */
    method FireOne(i: nat, ghost ps: seq<Pos>, ghost fs: seq<Direction>, ghost ds: seq<int>, ghost layer: map<Pos, int>)
      requires i < |board.players| && board.Distinct()
      requires PositionsOf(board.players) == ps && |fs| == |ps| && board.players[i].direction == fs[i]
      requires board.laserLayer == Lit(board, layer, ps, fs, i)
      requires DamagesOf(board.players) == Volley(board, ps, fs, ds, i)
      modifies board`laserLayer, board.players`damageTokens
      ensures board.laserLayer == Lit(board, layer, ps, fs, i + 1)
      ensures DamagesOf(board.players) == Volley(board, ps, fs, ds, i + 1)
    {
      board.players[i].Fire(board);
    }

    /** `fireLasers`: every board laser fires once, in list order. The
        overlay gets each beam; no robot's damage changes. */
    method FireLasers()
      requires forall l :: l in board.lasers ==> Inside(l.position, board.width, board.height)
      modifies board`laserLayer
      ensures board.laserLayer ==
        LasersLit(board, old(board.laserLayer), PositionsOf(board.players), board.lasers, |board.lasers|)
      ensures forall k :: 0 <= k < |board.players| ==> board.players[k].damageTokens == old(board.players[k].damageTokens)
    {
      ghost var layer, ps := board.laserLayer, PositionsOf(board.players);
      var i := 0;
      while i < |board.lasers|
        invariant 0 <= i <= |board.lasers| && PositionsOf(board.players) == ps
        invariant board.laserLayer == LasersLit(board, layer, ps, board.lasers, i)
      {
        FireLaser(i, layer, ps);
        i := i + 1;
      }
    }

    /** Board laser `i` fires: one more beam of `LasersLit`. */
    method FireLaser(i: nat, ghost layer: map<Pos, int>, ghost ps: seq<Pos>)
      requires i < |board.lasers| && PositionsOf(board.players) == ps
      requires forall l :: l in board.lasers ==> Inside(l.position, board.width, board.height)
      requires board.laserLayer == LasersLit(board, layer, ps, board.lasers, i)
      modifies board`laserLayer
      ensures board.laserLayer == LasersLit(board, layer, ps, board.lasers, i + 1)
    {
      board.lasers[i].Fire(board);
    }

    /** `removeLasers`: every cell of the board is cleared in the laser
        overlay, row by row. */
    method RemoveLasers()
      modifies board`laserLayer
      ensures forall p :: p in board.laserLayer <==> p in old(board.laserLayer) && !Inside(p, board.width, board.height)
      ensures forall p :: p in board.laserLayer ==> board.laserLayer[p] == old(board.laserLayer)[p]
    {
      var y := 0;
      while y < board.height
        invariant forall p :: p in board.laserLayer <==>
          p in old(board.laserLayer) && !(Inside(p, board.width, board.height) && p.y < y)
        invariant forall p :: p in board.laserLayer ==> board.laserLayer[p] == old(board.laserLayer)[p]
        decreases board.height - y
      {
        var x := 0;
        while x < board.width
          invariant forall p :: p in board.laserLayer <==>
            p in old(board.laserLayer) && !(Inside(p, board.width, board.height) && (p.y < y || (p.y == y && p.x < x)))
          invariant forall p :: p in board.laserLayer ==> board.laserLayer[p] == old(board.laserLayer)[p]
          decreases board.width - x
        {
          board.laserLayer := board.laserLayer - {Pos(x, y)};
          x := x + 1;
        }
        y := y + 1;
      }
    }

    /** `allPlayersPlayCard` for one register, in the order `order` (the
        card-priority order; the sorting is not modelled), robot `order[k]`
        playing card `cards[k]`, with an elimination check after every
        card. A robot that is no longer in play when its turn comes does
        not play (see `PlayEliminated`). */
    method PlayCards(order: seq<Player>, cards: seq<ProgramCard>)
      requires Valid() && |cards| == |order|
      modifies this`respawnPlayers, this`discardPile, board`players
      modifies board.players`position, board.players`direction, board.players`beltPushDir
      modifies board.players`lifeTokens, board.players`damageTokens
      ensures Valid()
      ensures forall k :: 0 <= k < |board.players| ==> board.players[k] in old(board.players)
      ensures |order| > 0 ==> forall r :: r in board.players ==> !Lost(board, r.damageTokens, r.position)
    {
      var i := 0;
      while i < |order|
        invariant 0 <= i <= |order| && Valid()
        invariant forall k :: 0 <= k < |board.players| ==> board.players[k] in old(board.players)
        invariant i > 0 ==> forall r :: r in board.players ==> !Lost(board, r.damageTokens, r.position)
      {
        var player := order[i];
        if player in board.players {
          PlayCard(player, cards[i]);
        }
        DecreaseLives();
        i := i + 1;
      }
    }

    /** A card played, as `allPlayersPlayCard` plays it, by a robot an
        earlier card of the same register has already taken out of play
        (the loop runs over a copy of the robot list): `addPlayer` puts it
        back among the robots in play while it still waits for the
        respawn, so the two lists are no longer apart. */
    method PlayEliminated(player: Player, card: ProgramCard)
      requires Valid() && player in respawnPlayers
      modifies player`direction, board`players, board.players`position, board.players`beltPushDir
      modifies player`position, player`beltPushDir, this`discardPile
      ensures player in board.players && player in respawnPlayers
      ensures !Valid()
    {
      PlayCard(player, card);
    }

    /** One register of `doTurn`, its phases in the code's order: the
        cards, the express belts, an elimination check, all belts, the
        robots' lasers, an elimination check, and, when the map has board
        lasers, those lasers and one more check. After each laser phase
        the overlay is cleared. Afterwards no robot in play is lost and no
        beam is left on the board. */
    method RunRegister(order: seq<Player>, cards: seq<ProgramCard>)
      requires Valid() && |cards| == |order|
      requires forall l :: l in board.lasers ==> Inside(l.position, board.width, board.height)
      modifies this`respawnPlayers, this`discardPile, board`players, board`laserLayer
      modifies board.players`position, board.players`direction, board.players`beltPushDir, board.players`beltPushPos
      modifies board.players`lifeTokens, board.players`damageTokens
      ensures Valid()
      ensures forall k :: 0 <= k < |board.players| ==> board.players[k] in old(board.players)
      ensures forall r :: r in board.players ==> !Lost(board, r.damageTokens, r.position)
      ensures forall p :: p in board.laserLayer ==> !Inside(p, board.width, board.height)
    {
      PlayCards(order, cards);
      BeltPhases();
      LaserPhases();
    }

    /** The belt phases of a register: express belts, an elimination
        check, then all belts. */
    method BeltPhases()
      requires Valid()
      modifies this`respawnPlayers, board`players
      modifies board.players`position, board.players`direction, board.players`beltPushDir, board.players`beltPushPos
      modifies board.players`lifeTokens, board.players`damageTokens
      ensures Valid()
      ensures forall k :: 0 <= k < |board.players| ==> board.players[k] in old(board.players)
    {
      ActivateBelts(true);
      DecreaseLives();
      ActivateBelts(false);
    }

    /** The laser phases of a register: the robots' lasers, an elimination
        check, then the board lasers, if any, and one more check; the
        overlay is cleared after each laser phase. */
    method LaserPhases()
      requires Valid()
      requires forall l :: l in board.lasers ==> Inside(l.position, board.width, board.height)
      modifies this`respawnPlayers, board`players, board`laserLayer
      modifies board.players`lifeTokens, board.players`damageTokens
      ensures Valid()
      ensures forall k :: 0 <= k < |board.players| ==> board.players[k] in old(board.players)
      ensures forall r :: r in board.players ==> !Lost(board, r.damageTokens, r.position)
      ensures forall p :: p in board.laserLayer ==> !Inside(p, board.width, board.height)
    {
      RobotLaserPhase();
      if |board.lasers| > 0 {
        BoardLaserPhase();
      }
    }

    /** The robots fire, the overlay is cleared, the robots lost drop out. */
    method RobotLaserPhase()
      requires Valid()
      modifies this`respawnPlayers, board`players, board`laserLayer
      modifies board.players`lifeTokens, board.players`damageTokens
      ensures Valid()
      ensures forall k :: 0 <= k < |board.players| ==> board.players[k] in old(board.players)
      ensures forall r :: r in board.players ==> !Lost(board, r.damageTokens, r.position)
      ensures forall p :: p in board.laserLayer ==> !Inside(p, board.width, board.height)
    {
      FirePlayerLasers();
      RemoveLasers();
      DecreaseLives();
    }

    /** The board lasers fire, the overlay is cleared, the robots lost drop out. */
    method BoardLaserPhase()
      requires Valid()
      requires forall l :: l in board.lasers ==> Inside(l.position, board.width, board.height)
      modifies this`respawnPlayers, board`players, board`laserLayer
      modifies board.players`lifeTokens, board.players`damageTokens
      ensures Valid()
      ensures forall k :: 0 <= k < |board.players| ==> board.players[k] in old(board.players)
      ensures forall r :: r in board.players ==> !Lost(board, r.damageTokens, r.position)
      ensures forall p :: p in board.laserLayer ==> !Inside(p, board.width, board.height)
    {
      FireLasers();
      RemoveLasers();
      DecreaseLives();
    }
  }
}
