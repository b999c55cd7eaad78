/** The newer board and the robots on it. A robot (`Player`) is an object
    whose fields the game updates in place; the board keeps the list of
    robots on it, the laser overlay and the fixed layers of the map. The two
    classes refer to each other, so they share one module. */
module Robots {
  import opened Wrappers
  import opened Geometry
  import opened Walls
  import opened Pushing
  import opened Terrain
  import opened Cards
  import opened LegacyBoard

  // ---------------------------------------------------------------------
  // Flags

  /** Collected flags are numbered 1, 2, 3, … in the order picked up. */
  predicate FlagsInOrder(fs: seq<Flag>) {
    forall i :: 0 <= i < |fs| ==> fs[i].number == i + 1
  }

  /** `tryToPickUpFlag` on the collected list: a flag is taken only when it
      is the next one due. */
  function TryPickUp(fs: seq<Flag>, f: Flag): seq<Flag> {
    if f.number == |fs| + 1 then fs + [f] else fs
  }

  /** The collected list after the robot is offered `offered`, one by one. */
  function PickUpAll(fs: seq<Flag>, offered: seq<Flag>): seq<Flag>
    decreases |offered|
  {
    if |offered| == 0 then fs else PickUpAll(TryPickUp(fs, offered[0]), offered[1..])
  }

  /** Whatever flags a robot reaches, and in whatever order, the flags it
      holds stay numbered 1, 2, 3, …: the list only grows at its end, by
      flags it was offered, one per offer at most. */
  lemma {:induction false} PickUpAllInOrder(fs: seq<Flag>, offered: seq<Flag>)
    requires FlagsInOrder(fs)
    ensures FlagsInOrder(PickUpAll(fs, offered))
    ensures fs <= PickUpAll(fs, offered)
    ensures |PickUpAll(fs, offered)| <= |fs| + |offered|
    ensures forall i :: |fs| <= i < |PickUpAll(fs, offered)| ==> PickUpAll(fs, offered)[i] in offered
    decreases |offered|
  {
    if |offered| > 0 {
      var next := TryPickUp(fs, offered[0]);
      PickUpAllInOrder(next, offered[1..]);
      var r := PickUpAll(fs, offered);
      forall i | |fs| <= i < |r|
        ensures r[i] in offered
      {
        if i < |next| {
          assert r[i] == next[i] == offered[0];
        } else {
          assert r[i] in offered[1..];
        }
      }
    }
  }

  // ---------------------------------------------------------------------
  // The alternative backup, as written

  /** `chooseAlternativeBackupPosition` as the code writes it, abstracted
      over the board: `pick(q)` is the valid (cell, facing) pair the search
      around `q` finds, if any, `start` the robot's start cell and `taken`
      whether a robot stands on it. With the start cell taken the code calls
      itself again around the start cell, and again, with nothing changed;
      `fuel` counts the calls the stack has room for, and `None` is the
      overflow. */
  function AlternativeAsWritten(pick: Pos -> Option<(Pos, Direction)>, p: Pos, start: Pos, taken: bool, fuel: nat): Option<(Pos, Direction)>
    decreases fuel
  {
    if fuel == 0 then None
    else if pick(p).Some? then pick(p)
    else if taken then AlternativeAsWritten(pick, start, start, taken, fuel - 1)
    else Some((start, East))
  }

  /** When a robot stands on the start cell and no cell around it is valid,
      the code never returns, however deep the stack: on a one-cell board
      whose only cell is the taken start cell, say. */
  lemma {:induction false} AlternativeAsWrittenDiverges(pick: Pos -> Option<(Pos, Direction)>, p: Pos, start: Pos, fuel: nat)
    requires pick(p).None? && pick(start).None?
    ensures AlternativeAsWritten(pick, p, start, true, fuel) == None
    decreases fuel
  {
    if fuel > 0 {
      AlternativeAsWrittenDiverges(pick, start, start, fuel - 1);
    }
  }

  /** Otherwise two calls are enough: the first search, then at most one
      around the start cell. */
  lemma AlternativeAsWrittenSettles(pick: Pos -> Option<(Pos, Direction)>, p: Pos, start: Pos, taken: bool, fuel: nat)
    requires fuel >= 2 && (pick(p).Some? || !taken || pick(start).Some?)
    ensures var r := AlternativeAsWritten(pick, p, start, taken, fuel);
      r == if pick(p).Some? then pick(p) else if taken then pick(start) else Some((start, East))
  {
  }

  // ---------------------------------------------------------------------
  // Robots

  class Player {
    const playerNumber: int
    const color: string
    var position: Pos
    var direction: Direction
    var backupPosition: Pos
    var backupDirection: Direction
    var alternativeBackupPosition: Option<Pos>
    var alternativeBackupDirection: Option<Direction>
    var flagsCollected: seq<Flag>
    var cardsOnHand: seq<ProgramCard>
    var programCardsDealt: int
    var beltPushDir: Option<Direction>
    var beltPushPos: Option<Pos>
    var poweringDown: bool
    var poweredDown: bool
    var powerDownNextRound: bool
    var powerUpNextRound: bool
    var confirmedPowerUpOrContinuePowerDown: bool
    var damageTokens: int
    var lifeTokens: int

    /** A new robot faces east with no damage, three lives and a quota of
        nine cards; its backup is its start cell, facing east. */
    constructor (position: Pos, playerNumber: int, color: string)
      ensures this.position == position && direction == East
      ensures this.playerNumber == playerNumber && this.color == color
      ensures flagsCollected == [] && cardsOnHand == []
      ensures damageTokens == 0 && lifeTokens == 3 && programCardsDealt == 9
      ensures beltPushDir == None && beltPushPos == None
      ensures !poweringDown && !poweredDown && !powerUpNextRound && !powerDownNextRound
      ensures !confirmedPowerUpOrContinuePowerDown
      ensures backupPosition == position && backupDirection == East
      ensures alternativeBackupPosition == None && alternativeBackupDirection == None
    {
      this.position := position;
      direction := East;
      this.playerNumber := playerNumber;
      flagsCollected := [];
      cardsOnHand := [];
      damageTokens := 0;
      lifeTokens := 3;
      beltPushDir := None;
      beltPushPos := None;
      programCardsDealt := 9;
      poweringDown := false;
      poweredDown := false;
      powerUpNextRound := false;
      powerDownNextRound := false;
      confirmedPowerUpOrContinuePowerDown := false;
      this.color := color;
      alternativeBackupPosition := None;
      alternativeBackupDirection := None;
      new;
      SetBackup(this.position, this.direction);
    }

    /** `updateProgramCardsDealt`: one card fewer for every damage token. */
    method UpdateProgramCardsDealt()
      modifies this`programCardsDealt
      ensures programCardsDealt == 9 - damageTokens
    {
      programCardsDealt := 9 - damageTokens;
    }

    /** `drawCards`: tops the hand up to the quota from the front of `deck`,
        keeping the cards already held; returns how many were drawn. */
    method DrawCards(deck: seq<ProgramCard>) returns (drawn: nat)
      requires |cardsOnHand| + |deck| >= 9 - damageTokens
      modifies this`programCardsDealt, this`cardsOnHand
      ensures programCardsDealt == 9 - damageTokens
      ensures drawn == if |old(cardsOnHand)| >= programCardsDealt then 0 else programCardsDealt - |old(cardsOnHand)|
      ensures drawn <= |deck|
      ensures cardsOnHand == old(cardsOnHand) + deck[..drawn]
      ensures |cardsOnHand| >= programCardsDealt
    {
      UpdateProgramCardsDealt();
      drawn := 0;
      while |cardsOnHand| < programCardsDealt
        invariant programCardsDealt == 9 - damageTokens
        invariant |old(cardsOnHand)| + |deck| >= programCardsDealt
        invariant drawn <= |deck|
        invariant cardsOnHand == old(cardsOnHand) + deck[..drawn]
        invariant drawn == 0 || |cardsOnHand| <= programCardsDealt
        decreases programCardsDealt - |cardsOnHand|
      {
        cardsOnHand := cardsOnHand + [deck[drawn]];
        drawn := drawn + 1;
      }
    }

    /** `resetDamageTokens`. */
    method ResetDamageTokens()
      modifies this`damageTokens
      ensures damageTokens == 0
    {
      damageTokens := 0;
    }

    /** `decrementDamageTokens`. */
    method DecrementDamageTokens()
      modifies this`damageTokens
      ensures damageTokens == old(damageTokens) - 1
    {
      damageTokens := damageTokens - 1;
    }

    /** `decrementLifeTokens`. */
    method DecrementLifeTokens()
      modifies this`lifeTokens
      ensures lifeTokens == old(lifeTokens) - 1
    {
      lifeTokens := lifeTokens - 1;
    }

    /** `handleDamage`: one more damage token. */
    method HandleDamage()
      modifies this`damageTokens
      ensures damageTokens == old(damageTokens) + 1
    {
      damageTokens := damageTokens + 1;
    }

    predicate IsDead()
      reads this
    {
      lifeTokens <= 0
    }

    /** Where a respawn leaves the robot: on its backup cell with its
        backup facing, or on the alternative pair it has just recorded. */
    predicate Respawned()
      reads this
    {
      || (position == backupPosition && direction == backupDirection)
      || (alternativeBackupPosition == Some(position) && alternativeBackupDirection == Some(direction))
    }

    /** `setBackup`: positions are values here, so the stored backup is a
        copy that later changes to the argument cannot reach. */
    method SetBackup(p: Pos, d: Direction)
      modifies this`backupPosition, this`backupDirection
      ensures backupPosition == p && backupDirection == d
    {
      backupPosition := p;
      backupDirection := d;
    }

    /** `setAlternativeBackup`. */
    method SetAlternativeBackup(p: Pos, d: Direction)
      modifies this`alternativeBackupPosition, this`alternativeBackupDirection
      ensures alternativeBackupPosition == Some(p) && alternativeBackupDirection == Some(d)
    {
      alternativeBackupPosition := Some(p);
      alternativeBackupDirection := Some(d);
    }

    predicate ShouldPickUpFlag(f: Flag)
      reads this
    {
      f.number == |flagsCollected| + 1
    }

    /** `pickUpFlag`. */
    method PickUpFlag(f: Flag)
      modifies this`flagsCollected
      ensures flagsCollected == old(flagsCollected) + [f]
    {
      flagsCollected := flagsCollected + [f];
    }

    /** `tryToPickUpFlag`: takes the flag only when it is the next one due,
        so a list numbered 1, 2, 3, … stays so. */
    method TryToPickUpFlag(f: Flag)
      modifies this`flagsCollected
      ensures flagsCollected == TryPickUp(old(flagsCollected), f)
      ensures flagsCollected != old(flagsCollected) <==> old(ShouldPickUpFlag(f))
      ensures FlagsInOrder(old(flagsCollected)) ==> FlagsInOrder(flagsCollected)
    {
      if ShouldPickUpFlag(f) {
        PickUpFlag(f);
      }
    }

    predicate HasAllFlags(numberOfFlags: int)
      reads this
    {
      |flagsCollected| == numberOfFlags
    }

    /** `equals(Player)`: two robots are equal when their numbers are. */
    predicate SameNumber(other: Player)
      reads this, other
    {
      playerNumber == other.playerNumber
    }

    predicate IsInBackupState()
      reads this
    {
      position == backupPosition && direction == backupDirection
    }

    /** `togglePowerDownOrUpNextRound`: a powered-down robot flips its
        power-up request, any other its power-down request. */
    method TogglePowerDownOrUpNextRound()
      modifies this`powerUpNextRound, this`powerDownNextRound
      ensures poweredDown ==> powerUpNextRound == !old(powerUpNextRound) && powerDownNextRound == old(powerDownNextRound)
      ensures !poweredDown ==> powerDownNextRound == !old(powerDownNextRound) && powerUpNextRound == old(powerUpNextRound)
    {
      if poweredDown {
        powerUpNextRound := !powerUpNextRound;
      } else {
        powerDownNextRound := !powerDownNextRound;
      }
    }

    /** `chooseAlternativeBackupPosition`, with the retry bounded: some valid
        (cell, facing) pair around `p`; failing that, the start cell facing
        east, and if a robot stands there, some valid pair around the start
        cell. The code retries around the start cell for as long as the start
        cell is taken and nothing around it is valid, without end (see
        `AlternativeAsWritten`). */
    method ChooseAlternativeBackupPosition(board: Board, p: Pos)
      requires board.ValidAround(p) || (board.GroundCovers() && board.HasStart(playerNumber))
      modifies this`alternativeBackupPosition, this`alternativeBackupDirection
      ensures alternativeBackupPosition.Some? && alternativeBackupDirection.Some?
      ensures var c, d := alternativeBackupPosition.value, alternativeBackupDirection.value;
        old(board.ValidAround(p)) ==>
        c in Neighbourhood(p, board.width, board.height) && old(board.ValidRespawnPosition(c, d))
      ensures var c, d := alternativeBackupPosition.value, alternativeBackupDirection.value;
        !old(board.ValidAround(p)) ==> old(board.StartFallback(playerNumber, c, d))
    {
      var pick := board.PickValidAround(p);
      if pick.Some? {
        SetAlternativeBackup(pick.value.0, pick.value.1);
        return;
      }
      // The board is only read from here on, so it is queried before the
      // backup fields are written.
      var start := board.GetStartPosition(playerNumber);
      var s := start.value.value;
      var taken := board.HasPlayer(s);
      var again := None;
      if taken {
        again := board.PickValidAround(s);
      }
      assert board.FirstStart(s, playerNumber);
      SetAlternativeBackup(s, East);
      if again.Some? {
        SetAlternativeBackup(again.value.0, again.value.1);
      }
    }

    /** `fire()`: when the robot can fire ahead, its beam starts on the
        neighbouring cell; it marks the cells of `Shot` and the robot it
        reaches, if any, takes one damage. No robot moves. */
    method Fire(board: Board)
      requires board.Distinct()
      modifies board`laserLayer, board.players`damageTokens
      ensures var ps := old(PositionsOf(board.players));
        board.laserLayer == Overlay(old(board.laserLayer), board.Shot(ps, position, direction), direction, board.width, board.height) &&
        DamagesOf(board.players) == Hit(old(DamagesOf(board.players)), board.ShotHits(ps, position, direction))
    {
      if board.CanFire(position, direction) {
        FireFrom(board, Neighbour(position, direction));
      }
    }

    /** `fire(game, position)`: marks the cell; a robot there takes one
        damage and stops the beam, otherwise the beam goes on while it can. */
    method FireFrom(board: Board, p: Pos)
      requires Inside(p, board.width, board.height) && board.Distinct()
      modifies board`laserLayer, board.players`damageTokens
      ensures var ps := old(PositionsOf(board.players));
        board.laserLayer == Overlay(old(board.laserLayer), board.Beam(ps, p, direction), direction, board.width, board.height) &&
        DamagesOf(board.players) == Hit(old(DamagesOf(board.players)), board.HitBy(ps, p, direction))
      decreases board.Edge(direction) - Progress(p, direction)
    {
      ghost var ps := PositionsOf(board.players);
      ghost var ds := DamagesOf(board.players);
      ghost var layer := board.laserLayer;
      board.BeamStep(ps, p, direction);
      board.AddLaser(p, direction);
      assert PositionsOf(board.players) == ps && DamagesOf(board.players) == ds;
      OverlayCons(layer, p, [], direction, board.width, board.height);
      assert [p] + [] == [p];
      var hit := board.HasPlayer(p);
      ghost var laid := board.laserLayer;
      if hit {
        board.DamagePlayer(FirstAt(PositionsOf(board.players), p));
        assert board.laserLayer == laid;
      } else if board.CanFire(p, direction) {
        var q := Neighbour(p, direction);
        OverlayCons(layer, p, board.Beam(ps, q, direction), direction, board.width, board.height);
        FireFrom(board, q);
        assert board.laserLayer == Overlay(laid, board.Beam(ps, q, direction), direction, board.width, board.height);
      } else {
        assert Hit(ds, None) == ds;
      }
    }
  }

  // ---------------------------------------------------------------------
  // Damage

  /** The damage tokens of a list of robots, in list order. */
  function DamagesOf(rs: seq<Player>): (ds: seq<int>)
    reads rs`damageTokens
    ensures |ds| == |rs|
    ensures forall k {:trigger ds[k]} :: 0 <= k < |rs| ==> ds[k] == rs[k].damageTokens
  {
    if |rs| == 0 then [] else [rs[0].damageTokens] + DamagesOf(rs[1..])
  }

  /** One more damage token for the robot at index `target`, if any. */
  function Hit(ds: seq<int>, target: Option<nat>): (r: seq<int>)
    ensures |r| == |ds|
    ensures forall k :: 0 <= k < |ds| ==> r[k] == ds[k] + if target == Some(k) then 1 else 0
  {
    if target.Some? && target.value < |ds| then ds[target.value := ds[target.value] + 1] else ds
  }

  // ---------------------------------------------------------------------
  // The board

  /** No robot object occurs twice in `rs`: none occurs before its own
      place in the list. */
  predicate Unique(rs: seq<Player>) {
    forall a :: 0 <= a < |rs| ==> rs[a] !in rs[..a]
  }

  /** In a list without repeats, two places hold two different robots. */
  lemma UniqueApart(rs: seq<Player>, a: nat, b: nat)
    requires Unique(rs) && a < |rs| && b < |rs| && a != b
    ensures rs[a] != rs[b]
  {
    if a < b {
      assert rs[a] in rs[..b];
    } else {
      assert rs[b] in rs[..a];
    }
  }

  /** Appending a robot not yet listed keeps a list without repeats. */
  lemma UniqueAppend(rs: seq<Player>, r: Player)
    requires Unique(rs) && r !in rs
    ensures Unique(rs + [r])
  {
    var s := rs + [r];
    forall a | 0 <= a < |s|
      ensures s[a] !in s[..a]
    {
      if a < |rs| {
        assert s[..a] == rs[..a];
      } else {
        assert s[..a] == rs;
      }
    }
  }

  /** The four facings, in the order a choice may try them. */
  const Directions: seq<Direction> := [North, South, East, West]

  /** The direction a move goes: backwards for a back-up move. */
  function Heading(facing: Direction, backUp: bool): Direction {
    if backUp then facing.TurnAround() else facing
  }

  /** The cells of a list of robots, in list order. */
  function PositionsOf(rs: seq<Player>): (ps: seq<Pos>)
    reads rs`position
    ensures |ps| == |rs|
    ensures forall k {:trigger ps[k]} :: 0 <= k < |rs| ==> ps[k] == rs[k].position
  {
    if |rs| == 0 then [] else [rs[0].position] + PositionsOf(rs[1..])
  }

  /** Listing one more robot adds its cell at the end. */
  lemma PositionsOfAppend(rs: seq<Player>, r: Player)
    ensures PositionsOf(rs + [r]) == PositionsOf(rs) + [r.position]
  {
    var a, b := PositionsOf(rs + [r]), PositionsOf(rs) + [r.position];
    assert |a| == |b|;
    forall k | 0 <= k < |a|
      ensures a[k] == b[k]
    {
      assert (rs + [r])[k] == if k < |rs| then rs[k] else r;
    }
  }

  class Board {
    const width: int
    const height: int
    const walls: WallLayer
    const ground: map<Pos, int>
    const holes: seq<Pos>
    const belts: seq<Belt>
    const expressBelts: seq<Belt>
    const lasers: seq<Laser>
    const flags: seq<Flag>
    var laserLayer: map<Pos, int>
    var players: seq<Player>

    /** A board with the layers read from its map and no robots yet. */
    constructor (width: int, height: int, walls: WallLayer, ground: map<Pos, int>, holes: seq<Pos>,
                 belts: seq<Belt>, expressBelts: seq<Belt>, lasers: seq<Laser>, flags: seq<Flag>)
      ensures this.width == width && this.height == height && this.walls == walls && this.ground == ground
      ensures this.holes == holes && this.belts == belts && this.expressBelts == expressBelts
      ensures this.lasers == lasers && this.flags == flags
      ensures laserLayer == map[] && players == []
    {
      this.width := width;
      this.height := height;
      this.walls := walls;
      this.ground := ground;
      this.holes := holes;
      this.belts := belts;
      this.expressBelts := expressBelts;
      this.lasers := lasers;
      this.flags := flags;
      laserLayer := map[];
      players := [];
    }

    /** No robot object is listed twice. */
    predicate Distinct()
      reads this`players
    {
      Unique(players)
    }

    /** Every cell of the board has a ground tile. */
    ghost predicate GroundCovers()
    {
      forall p :: Inside(p, width, height) ==> p in ground
    }

    predicate Occupied(p: Pos)
      reads this`players, players`position
    {
      p in PositionsOf(players)
    }

    /** Stand-in for `BoardLogic.outsideBoard`: off the board or on a hole. */
    predicate OutsideBoard(p: Pos)
    {
      !Inside(p, width, height) || p in holes
    }

    /** Stand-in for `canFire`: no wall on the edge ahead and a board cell
        beyond it. */
    predicate CanFire(p: Pos, d: Direction)
    {
      CanGo(walls, p, d) && Inside(Neighbour(p, d), width, height)
    }

    /** Stand-in for `validRespawnPosition`: a free board cell that is not
        a hole; the facing is not restricted. */
    predicate ValidRespawnPosition(p: Pos, d: Direction)
      reads this`players, players`position
    {
      Inside(p, width, height) && p !in holes && !Occupied(p)
    }

    /** Some (cell, facing) pair around `p` is valid for a respawn. */
    predicate ValidAround(p: Pos)
      reads this`players, players`position
    {
      exists c, d :: c in Neighbourhood(p, width, height) && d in Directions && ValidRespawnPosition(c, d)
    }

    /** The map has a start tile for player `n`. */
    ghost predicate HasStart(n: int)
    {
      exists p :: Inside(p, width, height) && IsStart(ground, p, n)
    }

    /** `p` is the first start tile of player `n` in scan order. */
    ghost predicate FirstStart(p: Pos, n: int)
    {
      Inside(p, width, height) && IsStart(ground, p, n) &&
      forall q :: Inside(q, width, height) && ScannedBefore(q, p) ==> !IsStart(ground, q, n)
    }

    /** The fallback respawn when nothing around the backup is valid: the
        start cell facing east, or, when a robot stands there, a valid pair
        around it if there is one. */
    ghost predicate StartFallback(n: int, c: Pos, d: Direction)
      reads this`players, players`position
    {
      exists s :: FirstStart(s, n) &&
        if Occupied(s) && ValidAround(s) then c in Neighbourhood(s, width, height) && ValidRespawnPosition(c, d)
        else c == s && d == East
    }

    /** How far a beam in direction `d` can get: the last column or row. */
    function Edge(d: Direction): int {
      match d
      case North => height - 1
      case South => 0
      case East => width - 1
      case West => 0
    }

    /** The cells a beam entering `p` in direction `d` marks while robots
        stand on the cells `ps`: it goes on while the cell is free and it can
        fire ahead, and it stops on the first robot. */
    function Beam(ps: seq<Pos>, p: Pos, d: Direction): (r: seq<Pos>)
      requires Inside(p, width, height)
      ensures 1 <= |r| && r[0] == p
      decreases Edge(d) - Progress(p, d)
    {
      if p in ps || !CanFire(p, d) then [p] else [p] + Beam(ps, Neighbour(p, d), d)
    }

    /** A beam runs straight along `d` over board cells. */
    lemma {:induction false} BeamCells(ps: seq<Pos>, p: Pos, d: Direction)
      requires Inside(p, width, height)
      ensures var r := Beam(ps, p, d);
        forall k :: 0 <= k < |r| ==> r[k] == Shift(p, d, k) && Inside(r[k], width, height)
      decreases Edge(d) - Progress(p, d)
    {
      if p !in ps && CanFire(p, d) {
        var q := Neighbour(p, d);
        BeamCells(ps, q, d);
        ShiftFrontAll(p, d);
        var r := Beam(ps, p, d);
        assert r[1..] == Beam(ps, q, d);
      }
    }

    /** A beam passes only free cells it can fire out of, and ends on a
        robot or before a wall or the edge of the board. */
    lemma {:induction false} BeamStops(ps: seq<Pos>, p: Pos, d: Direction)
      requires Inside(p, width, height)
      ensures var r := Beam(ps, p, d);
        (forall k :: 0 <= k < |r| - 1 ==> r[k] !in ps && CanFire(r[k], d)) &&
        (r[|r| - 1] in ps || !CanFire(r[|r| - 1], d))
      decreases Edge(d) - Progress(p, d)
    {
      if p !in ps && CanFire(p, d) {
        var q := Neighbour(p, d);
        BeamStops(ps, q, d);
        var r := Beam(ps, p, d);
        assert r[1..] == Beam(ps, q, d);
      }
    }

    /** The list index of the robot a beam entering `p` hits, if any: the
        first robot standing on the beam's last cell. */
    function HitBy(ps: seq<Pos>, p: Pos, d: Direction): (r: Option<nat>)
      requires Inside(p, width, height)
      ensures r.Some? ==> r.value < |ps| && ps[r.value] == Beam(ps, p, d)[|Beam(ps, p, d)| - 1]
      ensures r.None? ==> Beam(ps, p, d)[|Beam(ps, p, d)| - 1] !in ps
    {
      var beam := Beam(ps, p, d);
      var last := beam[|beam| - 1];
      if last in ps then Some(FirstAt(ps, last)) else None
    }

    /** One step of a beam: it stops on a robot or when it cannot go on,
        and otherwise carries on from the next cell. */
    lemma BeamStep(ps: seq<Pos>, p: Pos, d: Direction)
      requires Inside(p, width, height)
      ensures p in ps ==> Beam(ps, p, d) == [p] && HitBy(ps, p, d) == Some(FirstAt(ps, p))
      ensures p !in ps && !CanFire(p, d) ==> Beam(ps, p, d) == [p] && HitBy(ps, p, d) == None
      ensures p !in ps && CanFire(p, d) ==>
        Beam(ps, p, d) == [p] + Beam(ps, Neighbour(p, d), d) && HitBy(ps, p, d) == HitBy(ps, Neighbour(p, d), d)
    {
    }

    /** The cells a robot at `p` facing `d` marks when it fires. */
    function Shot(ps: seq<Pos>, p: Pos, d: Direction): seq<Pos>
    {
      if CanFire(p, d) then Beam(ps, Neighbour(p, d), d) else []
    }

    /** The robot a robot at `p` facing `d` hits when it fires, if any. */
    function ShotHits(ps: seq<Pos>, p: Pos, d: Direction): (r: Option<nat>)
      ensures r.Some? ==> r.value < |ps|
    {
      if CanFire(p, d) then HitBy(ps, Neighbour(p, d), d) else None
    }

    /** `hasPlayer`: some robot stands at `p`. */
    method HasPlayer(p: Pos) returns (b: bool)
      ensures b <==> Occupied(p)
    {
      var k := 0;
      while k < |players|
        invariant 0 <= k <= |players|
        invariant forall j :: 0 <= j < k ==> players[j].position != p
      {
        if players[k].position == p {
          assert PositionsOf(players)[k] == p;
          return true;
        }
        k := k + 1;
      }
      return false;
    }

    /** `getPlayer`: the first robot in the list standing at `p`, or none. */
    method GetPlayer(p: Pos) returns (r: Option<Player>)
      ensures r.Some? <==> Occupied(p)
      ensures r.Some? ==> r.value == players[FirstAt(PositionsOf(players), p)] && r.value.position == p
    {
      var k := 0;
      while k < |players|
        invariant 0 <= k <= |players|
        invariant forall j :: 0 <= j < k ==> players[j].position != p
      {
        if players[k].position == p {
          FirstAtIsFirst(PositionsOf(players), p, k);
          return Some(players[k]);
        }
        k := k + 1;
      }
      return None;
    }

    /** `getStartPosition(n)`: the first cell, column by column from the
        west and each column from the south, whose ground tile is player
        `n`'s start tile; none when the map has none or `n` is not 1..8.
        The scan reads every cell's tile, so the first cell without ground
        it meets, before any start tile, throws. */
    method GetStartPosition(n: int) returns (r: Result<Option<Pos>, string>)
      ensures r.Err? ==>
        && r.error == "NullPointerException"
        && exists u :: Inside(u, width, height) && u !in ground && CoveredBefore(u) && NoStartBefore(u, n)
      ensures r.Ok? && r.value.Some? ==> FirstStart(r.value.value, n) && CoveredBefore(r.value.value)
      ensures r == Ok(None) ==> GroundCovers() && !HasStart(n)
      ensures GroundCovers() ==> r.Ok? && (r.value.Some? <==> HasStart(n))
    {
      var x := 0;
      while x < width
        invariant 0 <= x
        invariant forall q :: Inside(q, width, height) && q.x < x ==> q in ground && !IsStart(ground, q, n)
        decreases width - x
      {
        var y := 0;
        while y < height
          invariant 0 <= y
          invariant forall q :: Inside(q, width, height) && q.x < x ==> q in ground && !IsStart(ground, q, n)
          invariant forall q :: Inside(q, width, height) && q.x == x && q.y < y ==> q in ground && !IsStart(ground, q, n)
          decreases height - y
        {
          if Pos(x, y) !in ground {
            assert CoveredBefore(Pos(x, y)) && NoStartBefore(Pos(x, y), n);
            return Err("NullPointerException");
          }
          var id := ground[Pos(x, y)];
          if StartId(n).Some? && id == StartId(n).value {
            assert IsStart(ground, Pos(x, y), n);
            return Ok(Some(Pos(x, y)));
          }
          y := y + 1;
        }
        x := x + 1;
      }
      return Ok(None);
    }

    /** Every cell the scan reads before `p` has ground. */
    ghost predicate CoveredBefore(p: Pos)
    {
      forall q :: Inside(q, width, height) && ScannedBefore(q, p) ==> q in ground
    }

    /** No cell the scan reads before `p` is player `n`'s start tile. */
    ghost predicate NoStartBefore(p: Pos, n: int)
    {
      forall q :: Inside(q, width, height) && ScannedBefore(q, p) ==> !IsStart(ground, q, n)
    }

    /** `getNeighbourhood`: the on-board cells of the 3×3 block around `p`,
        row by row from the south, each row from the west. */
    method GetNeighbourhood(p: Pos) returns (cells: seq<Pos>)
      ensures cells == Neighbourhood(p, width, height)
    {
      cells := [];
      var dy := -1;
      while dy <= 1
        invariant -1 <= dy <= 2
        invariant cells == ScanCells(p, 3 * (dy + 1), width, height)
      {
        cells := NeighbourRow(p, dy, cells);
        dy := dy + 1;
      }
    }

    /** One row of `getNeighbourhood`'s scan: the on-board cells of row
        `p.y + dy`, from the west, after those of the rows below. */
    method NeighbourRow(p: Pos, dy: int, cells: seq<Pos>) returns (cells': seq<Pos>)
      requires -1 <= dy <= 1
      requires cells == ScanCells(p, 3 * (dy + 1), width, height)
      ensures cells' == ScanCells(p, 3 * (dy + 1) + 3, width, height)
    {
      cells' := cells;
      ghost var k := 3 * (dy + 1);
      var dx := -1;
      while dx <= 1
        invariant -1 <= dx <= 2 && k == 3 * (dy + 1) + (dx + 1)
        invariant cells' == ScanCells(p, k, width, height)
      {
        var c := Pos(p.x + dx, p.y + dy);
        OffsetAt(p, dx, dy, width, height);
        if c.x >= 0 && c.x < width && c.y >= 0 && c.y < height {
          cells' := cells' + [c];
        }
        k := k + 1;
        dx := dx + 1;
      }
    }

    /** The search of `chooseAlternativeBackupPosition` around `p`: some
        valid (cell, facing) pair among the cells of the neighbourhood and
        the four facings, if there is one. The code tries them in a shuffled
        order, so which valid pair is found is left open. */
    method PickValidAround(p: Pos) returns (r: Option<(Pos, Direction)>)
      ensures r.Some? <==> ValidAround(p)
      ensures r.Some? ==> r.value.0 in Neighbourhood(p, width, height) && r.value.1 in Directions &&
                          ValidRespawnPosition(r.value.0, r.value.1)
    {
      var around := GetNeighbourhood(p);
      if exists c, d :: c in around && d in Directions && ValidRespawnPosition(c, d) {
        var c, d :| c in around && d in Directions && ValidRespawnPosition(c, d);
        return Some((c, d));
      }
      return None;
    }

    /** `addLaser`: draws a beam in direction `d` in cell `p` of the overlay. */
    method AddLaser(p: Pos, d: Direction)
      modifies this`laserLayer
      ensures laserLayer == LayBeam(old(laserLayer), p, d, width, height)
    {
      var cell := CellAt(laserLayer, p);
      var drawn := AddBeam(cell, d);
      if Inside(p, width, height) {
        laserLayer := laserLayer[p := drawn.value];
      }
    }

    /** `addPlayer`: lists the robot unless it is listed already. */
    method AddPlayer(player: Player)
      modifies this`players
      ensures players == old(players) + if player in old(players) then [] else [player]
      ensures old(Distinct()) ==> Distinct()
    {
      if player !in players {
        if Unique(players) {
          UniqueAppend(players, player);
        }
        players := players + [player];
      }
    }

    /** `updateBoard`: re-adds every listed robot, which leaves the list as it is. */
    method UpdateBoard()
      modifies this`players
      ensures players == old(players)
    {
      var k := 0;
      while k < |players|
        invariant 0 <= k
        invariant players == old(players)
      {
        AddPlayer(players[k]);
        k := k + 1;
      }
    }

    /** `getPlayer(p).handleDamage()` for the robot at index `k`, the first
        one on its cell: it takes one damage token, and no other robot does. */
    method DamagePlayer(k: nat)
      requires k < |players| && Distinct()
      modifies players`damageTokens
      ensures DamagesOf(players) == Hit(old(DamagesOf(players)), Some(k))
    {
      players[k].HandleDamage();
      forall i | 0 <= i < |players| && i != k
        ensures players[i].damageTokens == old(players[i].damageTokens)
      {
        UniqueApart(players, i, k);
      }
    }

    /** Puts robot `j` on cell `q`; with no robot listed twice, no other
        robot moves. */
    method Place(j: nat, q: Pos)
      requires j < |players| && Distinct()
      modifies players`position
      ensures PositionsOf(players) == old(PositionsOf(players))[j := q]
    {
      var target := players[j];
      target.position := q;
      forall i | 0 <= i < |players| && i != j
        ensures players[i].position == old(players[i].position)
      {
        UniqueApart(players, i, j);
      }
    }

    /** Pushes robot `j` one cell in `d`, first pushing the robot on the
        cell ahead of it (and so on down the line). */
    method PushPlayer(j: nat, d: Direction)
      requires j < |players| && Distinct()
      modifies players`position
      ensures PositionsOf(players) == Push(old(PositionsOf(players)), j, d)
      decreases MaxProgress(PositionsOf(players), d) - Progress(players[j].position, d)
    {
      var ps := PositionsOf(players);
      var q := Neighbour(ps[j], d);
      if q in ps {
        PushPlayer(FirstAt(ps, q), d);
      }
      Place(j, q);
    }

    /** `movePlayer(player, backUp)`: the robot steps one cell along its
        facing (against it when backing up), pushing the line of robots
        ahead when every robot of it can go; when it goes, its belt-push
        direction is cleared. Either way it ends up listed. */
    method MovePlayer(player: Player, backUp: bool)
      requires Distinct()
      modifies this`players, players`position, player`position, player`beltPushDir
      ensures Distinct()
      ensures players == old(players) + if player in old(players) then [] else [player]
      ensures player.direction == old(player.direction)
      ensures var ps, p, d := old(PositionsOf(players)), old(player.position), Heading(player.direction, backUp);
        player.position == (if GoesAll(walls, ps, p, d) then Neighbour(p, d) else p) &&
        player.beltPushDir == (if GoesAll(walls, ps, p, d) then None else old(player.beltPushDir)) &&
        forall k :: 0 <= k < |ps| && old(players[k]) != player ==> players[k].position == PushedAll(walls, ps, p, d)[k]
    {
      ghost var ps := PositionsOf(players);
      var position := player.position;
      var direction := Heading(player.direction, backUp);
      var goes := ClearWay(player, direction);
      if !goes {
        AddPlayer(player);
        return;
      }
      player.position := Neighbour(position, direction);
      AddPlayer(player);
      player.beltPushDir := None;
    }

    /** The checks of `movePlayer` before its step: whether the robot at
        `player`'s cell may step in `d` (no wall, and the line of robots
        ahead, if any, can be pushed), pushing that line when it may. The
        robot itself does not move yet. */
    method ClearWay(player: Player, d: Direction) returns (goes: bool)
      requires Distinct()
      modifies players`position
      ensures var ps, p := old(PositionsOf(players)), old(player.position);
        goes == GoesAll(walls, ps, p, d) &&
        PositionsOf(players) == PushedAll(walls, ps, p, d) &&
        player.position == p
    {
      ghost var ps := PositionsOf(players);
      var position := player.position;
      if !CanGo(walls, position, d) {
        return false;
      }
      var q := Neighbour(position, d);
      var push := HasPlayer(q);
      if push {
        var canPush := CanPushAll(walls, PositionsOf(players), q, d);
        if !canPush {
          return false;
        }
        var k := FirstAt(PositionsOf(players), q);
        PushPlayer(k, d);
        PushMovesRun(ps, k, d);
        forall i | 0 <= i < |ps| && players[i] == player
          ensures players[i].position == position
        {
          if i in RunIndices(ps, k, d) {
            RunIndicesAhead(ps, k, d, i);
          }
        }
      }
      return true;
    }

    /** `respawn`: the robot returns to its backup cell and facing, or,
        when a robot stands on the backup cell, to an alternative pair. */
    method Respawn(player: Player)
      requires Distinct()
      requires Occupied(player.backupPosition) ==>
        ValidAround(player.backupPosition) || (GroundCovers() && HasStart(player.playerNumber))
      modifies this`players, player`position, player`direction
      modifies player`alternativeBackupPosition, player`alternativeBackupDirection
      ensures Distinct()
      ensures players == old(players) + if player in old(players) then [] else [player]
      ensures !old(Occupied(player.backupPosition)) ==>
        player.position == player.backupPosition && player.direction == player.backupDirection
      ensures old(Occupied(player.backupPosition)) ==>
        player.alternativeBackupPosition == Some(player.position) &&
        player.alternativeBackupDirection == Some(player.direction)
      ensures var c, d := player.position, player.direction;
        old(Occupied(player.backupPosition) && ValidAround(player.backupPosition)) ==>
        c in Neighbourhood(player.backupPosition, width, height) && old(ValidRespawnPosition(c, d))
    {
      var taken := HasPlayer(player.backupPosition);
      if taken {
        player.ChooseAlternativeBackupPosition(this, player.backupPosition);
        player.position := player.alternativeBackupPosition.value;
        player.direction := player.alternativeBackupDirection.value;
      } else {
        player.position := player.backupPosition;
        player.direction := player.backupDirection;
      }
      AddPlayer(player);
    }
  }

  /** A laser mounted on the board. */
  class Laser {
    const position: Pos
    const direction: Direction

    constructor (position: Pos, direction: Direction)
      ensures this.position == position && this.direction == direction
    {
      this.position := position;
      this.direction := direction;
    }

    /** `fire()`: the beam starts on the laser's own cell. It marks the
        cells of `Beam` and damages nobody: a robot only stops it. */
    method Fire(board: Board)
      requires Inside(position, board.width, board.height)
      modifies board`laserLayer
      ensures board.laserLayer == Overlay(old(board.laserLayer), board.Beam(PositionsOf(board.players), position, direction), direction, board.width, board.height)
    {
      FireFrom(board, position);
    }

    /** `fire(game, position)`: marks the cell; the beam stops on a robot
        and otherwise goes on while the edge ahead is open and the next cell
        is on the board. */
    method FireFrom(board: Board, p: Pos)
      requires Inside(p, board.width, board.height)
      modifies board`laserLayer
      ensures board.laserLayer == Overlay(old(board.laserLayer), board.Beam(PositionsOf(board.players), p, direction), direction, board.width, board.height)
      decreases board.Edge(direction) - Progress(p, direction)
    {
      board.BeamStep(PositionsOf(board.players), p, direction);
      board.AddLaser(p, direction);
      var hit := board.HasPlayer(p);
      if !hit && CanGo(board.walls, p, direction) && Inside(Neighbour(p, direction), board.width, board.height) {
        FireFrom(board, Neighbour(p, direction));
      }
    }
  }
}
