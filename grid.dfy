/** The static tile map: a 13 x 13 lattice of 3 x 3 house blocks separated
    by one-tile-wide streets. */
module Grid {
  import opened Directions

  /** `None` is what a query outside the map answers. */
  datatype Tile = None | Street | House

  const NumRows: int := 13
  const NumCols: int := 13

  /** Streets run along every row and column that is a multiple of this. */
  const BlockPeriod: int := 4

  predicate InGrid(row: int, col: int)
  {
    0 <= row < NumRows && 0 <= col < NumCols
  }

  /** The tile the map holds at (row, col), or `None` off the map. */
  function TileAt(row: int, col: int): (t: Tile)
    ensures t == None <==> !InGrid(row, col)
  {
    if !InGrid(row, col) then None
    else if row % BlockPeriod == 0 || col % BlockPeriod == 0 then Street
    else House
  }

  /** The tile one step from (row, col) in direction `d`. */
  function NeighbourTile(row: int, col: int, d: Dir): Tile
  {
    TileAt(row + RowStep(d), col + ColStep(d))
  }

  /** The directions, in the order N, E, S, W, whose neighbouring tile is a
      Street: the candidate list a house or a spawning car collects. */
  function StreetDirs(row: int, col: int): seq<Dir>
  {
    (if TileAt(row - 1, col) == Street then [N] else []) +
    (if TileAt(row, col + 1) == Street then [E] else []) +
    (if TileAt(row + 1, col) == Street then [S] else []) +
    (if TileAt(row, col - 1) == Street then [W] else [])
  }

  /** The list holds every direction towards a Street neighbour and no
      other. */
  lemma StreetDirsMembers(row: int, col: int)
    ensures forall d: Dir :: d in StreetDirs(row, col) <==> NeighbourTile(row, col, d) == Street
  {
    var n := if TileAt(row - 1, col) == Street then [N] else [];
    var e := if TileAt(row, col + 1) == Street then [E] else [];
    var s := if TileAt(row + 1, col) == Street then [S] else [];
    var w := if TileAt(row, col - 1) == Street then [W] else [];
    assert StreetDirs(row, col) == n + e + s + w;
    forall d: Dir ensures d in n + e + s + w <==> NeighbourTile(row, col, d) == Street {
      assert d in n + e + s + w <==> d in n || d in e || d in s || d in w;
    }
  }

  /** The list is in the order N, E, S, W, so it holds no direction twice. */
  lemma StreetDirsOrdered(row: int, col: int)
    ensures forall i, j :: 0 <= i < j < |StreetDirs(row, col)| ==> StreetDirs(row, col)[i] < StreetDirs(row, col)[j]
  {
  }

  /** The outer rows and columns are streets, so the street network has no
      dead end: every Street tile has at least two Street neighbours. */
  lemma StreetTileHasTwoStreetNeighbours(row: int, col: int)
    requires TileAt(row, col) == Street
    ensures |StreetDirs(row, col)| >= 2
  {
    StreetDirsMembers(row, col);
    var horizontal := row % BlockPeriod == 0;
    var vertical := col % BlockPeriod == 0;
    if horizontal && vertical {
      // A crossing: one of E/W and one of N/S lie on the map.
      var ew := if col + 1 < NumCols then E else W;
      var ns := if row + 1 < NumRows then S else N;
      assert NeighbourTile(row, col, ew) == Street;
      assert NeighbourTile(row, col, ns) == Street;
      TwoDistinctMembers(StreetDirs(row, col), ew, ns);
    } else if horizontal {
      // Along a street row away from a crossing: both E and W are street.
      assert 0 < col < NumCols - 1;
      assert NeighbourTile(row, col, E) == Street;
      assert NeighbourTile(row, col, W) == Street;
      TwoDistinctMembers(StreetDirs(row, col), E, W);
    } else {
      assert vertical;
      assert 0 < row < NumRows - 1;
      assert NeighbourTile(row, col, N) == Street;
      assert NeighbourTile(row, col, S) == Street;
      TwoDistinctMembers(StreetDirs(row, col), N, S);
    }
  }

  lemma TwoDistinctMembers(s: seq<Dir>, a: Dir, b: Dir)
    requires a in s && b in s && a != b
    ensures |s| >= 2
  {
  }

  /** A House tile has a Street neighbour exactly when it is not the centre
      of its 3 x 3 block. */
  lemma HouseStreetNeighbours(row: int, col: int)
    requires TileAt(row, col) == House
    ensures |StreetDirs(row, col)| > 0 <==> !(row % BlockPeriod == 2 && col % BlockPeriod == 2)
  {
    StreetDirsMembers(row, col);
    if row % BlockPeriod == 2 && col % BlockPeriod == 2 {
      forall d: Dir ensures NeighbourTile(row, col, d) != Street {
      }
    } else {
      var d := if row % BlockPeriod == 1 then N
               else if row % BlockPeriod == 3 then S
               else if col % BlockPeriod == 1 then W
               else E;
      assert NeighbourTile(row, col, d) == Street;
    }
  }
}
