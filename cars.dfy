/** A car's navigation state and the discrete part of one simulation tick:
    advance along the current tile, and on reaching its end move one tile and
    pick the next heading among the streets ahead. */
module Cars {
  import opened Directions
  import opened Randomness
  import opened Grid

  /** Speeds are drawn from [MinSpeed, MaxSpeed), in tiles per tick. */
  const MinSpeed: real := 1.0 / 120.0
  const MaxSpeed: real := 1.0 / 20.0

  /** `minSpeed + Math.random() * (maxSpeed - minSpeed)`. */
  function SpeedFromDraw(draw: Draw): (speed: real)
    ensures MinSpeed <= speed < MaxSpeed
  {
    MinSpeed + draw * (MaxSpeed - MinSpeed)
  }

  /** A car as the simulation sees it: the tile it last reached, the heading
      it arrived with, the heading it will leave with, its speed and its
      progress across the current tile. */
  datatype CarState = CarState(row: int, col: int, dir: Dir, nextDir: Dir, speed: real, distance: real)

  /** A car object; the methods of the city update its fields in place. */
  class Car {
    var row: int
    var col: int
    var dir: Dir
    var nextDir: Dir
    var speed: real
    var distance: real

    constructor (row: int, col: int, speedDraw: Draw)
      ensures State() == CarState(row, col, N, N, SpeedFromDraw(speedDraw), 0.0)
    {
      this.row := row;
      this.col := col;
      dir := N;
      nextDir := N;
      speed := SpeedFromDraw(speedDraw);
      distance := 0.0;
    }

    function State(): CarState
      reads this
    {
      CarState(row, col, dir, nextDir, speed, distance)
    }
  }

  /** The headings, in the order N, E, S, W, a car standing on (row, col)
      after arriving with heading `dir` may leave with: never back where it
      came from, and only onto a Street tile. */
  function NavOptions(row: int, col: int, dir: Dir): seq<Dir>
  {
    (if dir != OppositeDir(N) && TileAt(row - 1, col) == Street then [N] else []) +
    (if dir != OppositeDir(E) && TileAt(row, col + 1) == Street then [E] else []) +
    (if dir != OppositeDir(S) && TileAt(row + 1, col) == Street then [S] else []) +
    (if dir != OppositeDir(W) && TileAt(row, col - 1) == Street then [W] else [])
  }

  /** The options are exactly the non-reversing directions towards a Street
      neighbour. */
  lemma NavOptionsMembers(row: int, col: int, dir: Dir)
    ensures forall d: Dir :: d in NavOptions(row, col, dir) <==>
              d != OppositeDir(dir) && NeighbourTile(row, col, d) == Street
  {
    var n := if dir != OppositeDir(N) && TileAt(row - 1, col) == Street then [N] else [];
    var e := if dir != OppositeDir(E) && TileAt(row, col + 1) == Street then [E] else [];
    var s := if dir != OppositeDir(S) && TileAt(row + 1, col) == Street then [S] else [];
    var w := if dir != OppositeDir(W) && TileAt(row, col - 1) == Street then [W] else [];
    assert NavOptions(row, col, dir) == n + e + s + w;
    forall d: Dir
      ensures d in n + e + s + w <==> d != OppositeDir(dir) && NeighbourTile(row, col, d) == Street
    {
      assert d in n + e + s + w <==> d in n || d in e || d in s || d in w;
      OppositeDirInvolutive(d);
    }
  }

  /** The options are in the order N, E, S, W, so none appears twice. */
  lemma NavOptionsOrdered(row: int, col: int, dir: Dir)
    ensures forall i, j :: 0 <= i < j < |NavOptions(row, col, dir)| ==>
              NavOptions(row, col, dir)[i] < NavOptions(row, col, dir)[j]
  {
  }

  /** The heading back is never an option, so a car has at most three. */
  lemma NavOptionsAtMostThree(row: int, col: int, dir: Dir)
    ensures |NavOptions(row, col, dir)| <= 3
    ensures OppositeDir(dir) !in NavOptions(row, col, dir)
  {
    NavOptionsMembers(row, col, dir);
    NavOptionsOrdered(row, col, dir);
  }

  /** On this map a car that has reached a Street tile always has a way on. */
  lemma NoDeadEnds(row: int, col: int, dir: Dir)
    requires TileAt(row, col) == Street
    ensures |NavOptions(row, col, dir)| >= 1
  {
    StreetTileHasTwoStreetNeighbours(row, col);
    StreetDirsMembers(row, col);
    NavOptionsMembers(row, col, dir);
    var dirs := StreetDirs(row, col);
    assert dirs[0] in dirs && dirs[1] in dirs;
    var d := if dirs[0] != OppositeDir(dir) then dirs[0] else dirs[1];
    assert d in NavOptions(row, col, dir);
  }

  /** The progress at which the car reaches the end of its current tile. */
  function SegmentLength(s: CarState): real
  {
    TurnDistance(Turn(s.dir, s.nextDir))
  }

  /** Whether this tick takes the car past the end of its current tile. */
  predicate Commits(s: CarState)
  {
    s.distance + s.speed > SegmentLength(s)
  }

  /** One tick of `updateCar`, leaving out the pose. On a commit the car
      moves one tile in `nextDir`; it then either takes a drawn option as
      its new `nextDir` and keeps the progress beyond the old segment, or,
      with no option, stops at the end of the old segment. */
  function Tick(s: CarState, draw: Draw): (t: CarState)
    ensures t.speed == s.speed
  {
    var turnDistance := SegmentLength(s);
    var distance := s.distance + s.speed;
    if distance > turnDistance then
      var row := s.row + RowStep(s.nextDir);
      var col := s.col + ColStep(s.nextDir);
      var options := NavOptions(row, col, s.nextDir);
      if |options| == 0 then
        s.(row := row, col := col, dir := s.nextDir, distance := turnDistance)
      else
        s.(row := row, col := col, dir := s.nextDir,
           nextDir := options[RandomInt(draw, |options|)], distance := distance - turnDistance)
    else
      s.(distance := distance)
  }

  /** The state every car keeps: it stands on a Street tile, the tile it
      heads for is a Street tile, it is not about to reverse, its speed is
      in range and its progress lies within the current segment. */
  ghost predicate OnNetwork(s: CarState)
  {
    TileAt(s.row, s.col) == Street &&
    NeighbourTile(s.row, s.col, s.nextDir) == Street &&
    s.nextDir != OppositeDir(s.dir) &&
    MinSpeed <= s.speed <= MaxSpeed &&
    0.0 <= s.distance <= SegmentLength(s)
  }

  /** Without a commit only the progress grows, by the speed. With one, the
      car moves exactly one tile in its old `nextDir`, now its heading; then
      either it takes one of the options there as its next heading and keeps
      the progress beyond the old segment, or, with no option, its progress
      is set to the old segment's length and its next heading stays, so its
      next turn is straight on. */
  lemma TickMoves(s: CarState, draw: Draw)
    ensures var t := Tick(s, draw);
            !Commits(s) ==> t == s.(distance := s.distance + s.speed)
    ensures var t := Tick(s, draw);
            Commits(s) ==>
              t.row == s.row + RowStep(s.nextDir) && t.col == s.col + ColStep(s.nextDir) &&
              t.dir == s.nextDir && t.speed == s.speed
    ensures var t := Tick(s, draw);
            Commits(s) && |NavOptions(t.row, t.col, t.dir)| > 0 ==>
              t.nextDir in NavOptions(t.row, t.col, t.dir) &&
              t.distance == s.distance + s.speed - SegmentLength(s)
    ensures var t := Tick(s, draw);
            Commits(s) && |NavOptions(t.row, t.col, t.dir)| == 0 ==>
              t.nextDir == s.nextDir && t.distance == SegmentLength(s) && Turn(t.dir, t.nextDir) == 0
  {
  }

  /** A car on the street network never leaves it: the invariant holds
      after every tick, so the turn stays in {-1, 0, 1}, the next heading
      never reverses, and the progress through the segment stays in [0, 1]
      of its length. */
  lemma TickPreservesOnNetwork(s: CarState, draw: Draw)
    requires OnNetwork(s)
    ensures OnNetwork(Tick(s, draw))
    ensures -1 <= Turn(Tick(s, draw).dir, Tick(s, draw).nextDir) <= 1
  {
    var t := Tick(s, draw);
    if Commits(s) {
      var row := s.row + RowStep(s.nextDir);
      var col := s.col + ColStep(s.nextDir);
      NoDeadEnds(row, col, s.nextDir);
      NavOptionsMembers(row, col, s.nextDir);
      var options := NavOptions(row, col, s.nextDir);
      assert options[RandomInt(draw, |options|)] in options;
      TurnDistanceOrder();
    }
  }

  /** On this map a committing car always carries its surplus progress into
      the new segment; the stop at a dead end never happens. */
  lemma CommitCarriesOver(s: CarState, draw: Draw)
    requires OnNetwork(s) && Commits(s)
    ensures Tick(s, draw).distance == s.distance + s.speed - SegmentLength(s)
    ensures 0.0 < Tick(s, draw).distance <= s.speed
  {
    NoDeadEnds(s.row + RowStep(s.nextDir), s.col + ColStep(s.nextDir), s.nextDir);
  }

  /** A car never heads back to the tile it has just left. */
  lemma NeverTurnsBack(s: CarState, draw: Draw)
    requires OnNetwork(s) && Commits(s)
    ensures var t := Tick(s, draw);
            (t.row + RowStep(t.nextDir), t.col + ColStep(t.nextDir)) != (s.row, s.col)
  {
    var t := Tick(s, draw);
    TickPreservesOnNetwork(s, draw);
    StepGeometry(t.dir, t.nextDir);
  }

  /** A car placed on a Street tile heading along one of its Street
      neighbours, at the start of its first segment, is on the network, and
      its first segment is straight. */
  lemma SpawnOnNetwork(row: int, col: int, d: Dir, speedDraw: Draw)
    requires TileAt(row, col) == Street && d in StreetDirs(row, col)
    ensures OnNetwork(CarState(row, col, d, d, SpeedFromDraw(speedDraw), 0.0))
    ensures Turn(d, d) == 0
  {
    StreetDirsMembers(row, col);
  }
}
