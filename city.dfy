/** The city scene: it owns the tile map and the cars, spawns cars on random
    Street tiles and advances every car once per frame. */
module City {
  import opened Directions
  import opened Randomness
  import opened Grid
  import opened Cars

  /** The two draws of one attempt of the spawn loop: a row and a column. */
  datatype CellDraw = CellDraw(rowDraw: Draw, colDraw: Draw)

  function DrawnRow(c: CellDraw): int
  {
    RandomInt(c.rowDraw, NumRows)
  }

  function DrawnCol(c: CellDraw): int
  {
    RandomInt(c.colDraw, NumCols)
  }

  predicate HitsStreet(c: CellDraw)
  {
    TileAt(DrawnRow(c), DrawnCol(c)) == Street
  }

  /** The draws for spawning one car: the attempts of the rejection loop (at
      least one of which lands on a Street tile), the heading and the speed. */
  datatype SpawnDraws = SpawnDraws(cells: seq<CellDraw>, dirDraw: Draw, speedDraw: Draw)

  predicate Spawnable(s: SpawnDraws)
  {
    exists k :: 0 <= k < |s.cells| && HitsStreet(s.cells[k])
  }

  /** A new car as a spawn with draws `s` leaves it: on the first drawn
      Street cell, heading (with dir = nextDir) along the drawn Street
      neighbour, with the drawn speed and no progress. */
  ghost predicate SpawnedFrom(c: CarState, s: SpawnDraws)
  {
    (exists k :: 0 <= k < |s.cells| &&
       c.row == DrawnRow(s.cells[k]) && c.col == DrawnCol(s.cells[k]) &&
       forall j :: 0 <= j < k ==> !HitsStreet(s.cells[j])) &&
    c == CarState(c.row, c.col, c.dir, c.dir, SpeedFromDraw(s.speedDraw), 0.0) &&
    |StreetDirs(c.row, c.col)| > 0 &&
    c.dir == StreetDirs(c.row, c.col)[RandomInt(s.dirDraw, |StreetDirs(c.row, c.col)|)]
  }

  /** Number of cars the city is populated with. */
  const NumCars: int := 20

  class CityScene {
    var tiles: seq<seq<Tile>>
    var cars: seq<Car>

    /** The map holds, for every cell, the tile the block rule gives it. */
    ghost predicate MapValid()
      reads this
    {
      |tiles| == NumRows &&
      forall r :: 0 <= r < NumRows ==>
        |tiles[r]| == NumCols && forall c :: 0 <= c < NumCols ==> tiles[r][c] == TileAt(r, c)
    }

    /** The scene invariant: a valid map, distinct cars, and every car on
        the street network. */
    ghost predicate Valid()
      reads this, cars
    {
      MapValid() &&
      (forall i, j :: 0 <= i < j < |cars| ==> cars[i] != cars[j]) &&
      (forall i :: 0 <= i < |cars| ==> OnNetwork(cars[i].State()))
    }

    /** Fills the map row by row: Street where the row or the column is a
        multiple of the block period, House elsewhere. */
    constructor ()
      ensures Valid() && cars == []
    {
      var rows: seq<seq<Tile>> := [];
      var row := 0;
      while row < NumRows
        invariant 0 <= row <= NumRows && |rows| == row
        invariant forall r :: 0 <= r < row ==>
                    |rows[r]| == NumCols && forall c :: 0 <= c < NumCols ==> rows[r][c] == TileAt(r, c)
      {
        var line: seq<Tile> := [];
        var col := 0;
        while col < NumCols
          invariant 0 <= col <= NumCols && |line| == col
          invariant forall c :: 0 <= c < col ==> line[c] == TileAt(row, c)
        {
          line := line + [if row % BlockPeriod == 0 || col % BlockPeriod == 0 then Street else House];
          col := col + 1;
        }
        rows := rows + [line];
        row := row + 1;
      }
      tiles := rows;
      cars := [];
    }

    /** The tile at (row, col), `None` off the map. */
    function GetTile(row: int, col: int): (t: Tile)
      reads this
      requires MapValid()
      ensures t == TileAt(row, col)
    {
      if row < 0 || col < 0 || row >= NumRows || col >= NumCols then None
      else tiles[row][col]
    }

    /** The directions of the Street neighbours of (row, col), collected in
        the order N, E, S, W. */
    method StreetNeighbourDirs(row: int, col: int) returns (dirs: seq<Dir>)
      requires MapValid()
      ensures dirs == StreetDirs(row, col)
    {
      dirs := [];
      if GetTile(row - 1, col) == Street { dirs := dirs + [N]; }
      if GetTile(row, col + 1) == Street { dirs := dirs + [E]; }
      if GetTile(row + 1, col) == Street { dirs := dirs + [S]; }
      if GetTile(row, col - 1) == Street { dirs := dirs + [W]; }
    }

    /** The headings a car that reached (row, col) with heading `dir` may
        leave with, collected in the order N, E, S, W. */
    method FreeOptions(row: int, col: int, dir: Dir) returns (options: seq<Dir>)
      requires MapValid()
      ensures options == NavOptions(row, col, dir)
    {
      options := [];
      if dir != OppositeDir(N) && GetTile(row - 1, col) == Street { options := options + [N]; }
      if dir != OppositeDir(E) && GetTile(row, col + 1) == Street { options := options + [E]; }
      if dir != OppositeDir(S) && GetTile(row + 1, col) == Street { options := options + [S]; }
      if dir != OppositeDir(W) && GetTile(row, col - 1) == Street { options := options + [W]; }
    }

    /** The rejection loop of the spawn: draws cells until one is a Street
        tile; the answer is the first drawn cell that is. */
    method DrawStreetCell(cells: seq<CellDraw>) returns (row: int, col: int)
      requires MapValid()
      requires exists k :: 0 <= k < |cells| && HitsStreet(cells[k])
      ensures TileAt(row, col) == Street
      ensures exists k :: 0 <= k < |cells| &&
                row == DrawnRow(cells[k]) && col == DrawnCol(cells[k]) &&
                forall j :: 0 <= j < k ==> !HitsStreet(cells[j])
    {
      var k := 0;
      row := DrawnRow(cells[k]);
      col := DrawnCol(cells[k]);
      while GetTile(row, col) != Street
        invariant 0 <= k < |cells|
        invariant row == DrawnRow(cells[k]) && col == DrawnCol(cells[k])
        invariant forall j :: 0 <= j < k ==> !HitsStreet(cells[j])
        invariant exists j :: k <= j < |cells| && HitsStreet(cells[j])
        decreases |cells| - k
      {
        k := k + 1;
        row := DrawnRow(cells[k]);
        col := DrawnCol(cells[k]);
      }
    }

    /** Puts a new car on a drawn Street tile, heading along a drawn Street
        neighbour, at the start of a straight segment. */
    method SpawnRandomCar(draws: SpawnDraws)
      requires Valid() && Spawnable(draws)
      modifies this
      ensures Valid() && tiles == old(tiles)
      ensures |cars| == |old(cars)| + 1 && cars[..|old(cars)|] == old(cars)
      ensures fresh(cars[|old(cars)|])
      ensures SpawnedFrom(cars[|old(cars)|].State(), draws)
    {
      var row, col := DrawStreetCell(draws.cells);
      var dirs := StreetNeighbourDirs(row, col);
      StreetTileHasTwoStreetNeighbours(row, col);
      var car := new Car(row, col, draws.speedDraw);
      var d := dirs[RandomInt(draws.dirDraw, |dirs|)];
      car.dir := d;
      car.nextDir := d;
      SpawnOnNetwork(row, col, d, draws.speedDraw);
      cars := cars + [car];
    }

    /** The twenty spawns made when the scene is initialised. */
    method SpawnCars(spawns: seq<SpawnDraws>)
      requires Valid() && |spawns| == NumCars
      requires forall i :: 0 <= i < |spawns| ==> Spawnable(spawns[i])
      modifies this
      ensures Valid() && tiles == old(tiles)
      ensures |cars| == |old(cars)| + NumCars && cars[..|old(cars)|] == old(cars)
      ensures forall k :: |old(cars)| <= k < |cars| ==>
                fresh(cars[k]) && SpawnedFrom(cars[k].State(), spawns[k - |old(cars)|])
    {
      var i := 0;
      while i < |spawns|
        invariant 0 <= i <= |spawns|
        invariant Valid() && tiles == old(tiles)
        invariant |cars| == |old(cars)| + i && cars[..|old(cars)|] == old(cars)
        invariant forall k :: |old(cars)| <= k < |cars| ==>
                    fresh(cars[k]) && SpawnedFrom(cars[k].State(), spawns[k - |old(cars)|])
      {
        ghost var before := cars;
        SpawnRandomCar(spawns[i]);
        assert forall k :: 0 <= k < |before| ==> cars[k] == before[k];
        i := i + 1;
      }
    }

    /** One tick of one car, leaving out its pose: the state afterwards is
        `Tick` of the state before. */
    method UpdateCar(car: Car, draw: Draw)
      requires MapValid()
      modifies car
      ensures car.State() == Tick(old(car.State()), draw)
    {
      ghost var before := car.State();
      var turn := Turn(car.dir, car.nextDir);
      var turnDistance := TurnDistance(turn);
      car.distance := car.distance + car.speed;
      if car.distance > turnDistance {
        // `updateCar`'s four `if`s on `nextDir` are exclusive; W is the one left.
        if car.nextDir == N { car.row := car.row - 1; }
        else if car.nextDir == E { car.col := car.col + 1; }
        else if car.nextDir == S { car.row := car.row + 1; }
        else { car.col := car.col - 1; }
        car.dir := car.nextDir;
        assert car.row == before.row + RowStep(before.nextDir) && car.col == before.col + ColStep(before.nextDir);

        var options := FreeOptions(car.row, car.col, car.dir);
        if |options| == 0 {
          car.distance := turnDistance;
          assert car.State() == Tick(before, draw);
          return;
        }
        car.nextDir := options[RandomInt(draw, |options|)];
        car.distance := car.distance - turnDistance;
        assert car.State() == Tick(before, draw);
      } else {
        assert car.State() == Tick(before, draw);
      }
    }

    /** Advances every car once, each with its own draw. */
    method Update(draws: seq<Draw>)
      requires Valid() && |draws| == |cars|
      modifies cars
      ensures Valid()
      ensures forall i :: 0 <= i < |cars| ==> cars[i].State() == Tick(old(cars[i].State()), draws[i])
    {
      var i := 0;
      while i < |cars|
        invariant 0 <= i <= |cars|
        invariant MapValid()
        invariant forall j, k :: 0 <= j < k < |cars| ==> cars[j] != cars[k]
        invariant forall j :: 0 <= j < i ==> cars[j].State() == Tick(old(cars[j].State()), draws[j])
        invariant forall j :: i <= j < |cars| ==> cars[j].State() == old(cars[j].State())
      {
        UpdateCar(cars[i], draws[i]);
        i := i + 1;
      }
      forall j | 0 <= j < |cars|
        ensures OnNetwork(cars[j].State())
      {
        TickPreservesOnNetwork(old(cars[j].State()), draws[j]);
      }
    }
  }
}
