/** What is placed on each tile when the city is built: a road piece chosen
    from the tile's street neighbourhood, or a building facing a street. */
module Roads {
  import opened Directions
  import opened Randomness
  import opened Grid

  /** The five road assets. */
  datatype Piece = End | Straight | Bend | Intersection | Crossroad

  /** An entry of the road table: the piece and its turn about the vertical
      axis in quarter turns (the rotation is quarterTurns * pi/2). */
  datatype RoadEntry = NoRoad | Road(piece: Piece, quarterTurns: int)

  /** The neighbour-mask bit of a direction: N = 1, E = 2, S = 4, W = 8. */
  function Bit(d: Dir): bv4
  {
    if d == N then 1 else if d == E then 2 else if d == S then 4 else 8
  }

  predicate HasBit(mask: bv4, d: Dir)
  {
    mask & Bit(d) != 0
  }

  /** Number of set bits, i.e. of open directions. */
  function PopCount(mask: bv4): nat
  {
    (if HasBit(mask, N) then 1 else 0) + (if HasBit(mask, E) then 1 else 0) +
    (if HasBit(mask, S) then 1 else 0) + (if HasBit(mask, W) then 1 else 0)
  }

  /** The table indexed by neighbour mask. Entry 0 holds no piece. */
  const Roads: seq<RoadEntry> := [
    NoRoad,                   // 0000
    Road(End, -1),            // 1000
    Road(End, 2),             // 0100
    Road(Bend, 0),            // 1100
    Road(End, 1),             // 0010
    Road(Straight, 1),        // 1010
    Road(Bend, -1),           // 0110
    Road(Intersection, -1),   // 1110
    Road(End, 0),             // 0001
    Road(Bend, 1),            // 1001
    Road(Straight, 0),        // 0101
    Road(Intersection, 0),    // 1101
    Road(Bend, 2),            // 0011
    Road(Intersection, 1),    // 1011
    Road(Intersection, 2),    // 0111
    Road(Crossroad, 0)        // 1111
  ]

  /** The connectors of each asset in its unrotated orientation, as a mask:
      these are the masks whose table entry has no rotation. */
  function CanonicalMask(p: Piece): bv4
  {
    match p
    case End => 8
    case Straight => 10
    case Bend => 3
    case Intersection => 11
    case Crossroad => 15
  }

  /** Turning the piece of `e` by its rotation takes its connectors onto
      exactly the open directions of `mask`. */
  predicate Aligned(e: RoadEntry, mask: bv4)
  {
    e.Road? &&
    forall d: Dir :: HasBit(CanonicalMask(e.piece), d) <==> HasBit(mask, RotateDir(d, e.quarterTurns))
  }

  /** The neighbour mask of a tile. */
  function RoadMask(row: int, col: int): (mask: bv4)
    ensures forall d: Dir :: HasBit(mask, d) <==> NeighbourTile(row, col, d) == Street
  {
    (if TileAt(row - 1, col) == Street then 1 else 0) |
    (if TileAt(row, col + 1) == Street then 2 else 0) |
    (if TileAt(row + 1, col) == Street then 4 else 0) |
    (if TileAt(row, col - 1) == Street then 8 else 0)
  }

  /** The road piece and rotation for the tile at (row, col). */
  function RoadAt(row: int, col: int): RoadEntry
  {
    Roads[RoadMask(row, col) as int]
  }

  /** Every nonzero mask has a piece whose rotated connectors are exactly the
      mask's open directions. */
  lemma RoadTableAligned(mask: bv4)
    requires mask != 0
    ensures Aligned(Roads[mask as int], mask)
  {
  }

  /** The piece follows the shape of the mask: one open side is an end,
      two opposite sides a straight, two adjacent sides a bend, three an
      intersection and four a crossroad; only mask 0 has no piece. */
  lemma RoadTableShape(mask: bv4)
    ensures Roads[mask as int].NoRoad? <==> mask == 0
    ensures Roads[mask as int].Road? ==>
              var p := Roads[mask as int].piece;
              (p == End <==> PopCount(mask) == 1) &&
              (p == Straight <==> mask == 5 || mask == 10) &&
              (p == Bend <==> PopCount(mask) == 2 && mask != 5 && mask != 10) &&
              (p == Intersection <==> PopCount(mask) == 3) &&
              (p == Crossroad <==> PopCount(mask) == 4)
  {
  }

  /** On this map every Street tile gets a road piece (its mask is never 0),
      and the piece's rotated connectors point exactly at the neighbouring
      Street tiles. */
  lemma StreetTileRoad(row: int, col: int)
    requires TileAt(row, col) == Street
    ensures RoadMask(row, col) != 0
    ensures RoadAt(row, col).Road?
    ensures forall d: Dir ::
              HasBit(CanonicalMask(RoadAt(row, col).piece), d) <==>
              NeighbourTile(row, col, RotateDir(d, RoadAt(row, col).quarterTurns)) == Street
  {
    StreetTileHasTwoStreetNeighbours(row, col);
    StreetDirsMembers(row, col);
    var d0 := StreetDirs(row, col)[0];
    assert d0 in StreetDirs(row, col);
    assert HasBit(RoadMask(row, col), d0);
    RoadTableAligned(RoadMask(row, col));
  }

  /** The top-left corner has Street neighbours to the east and south only:
      mask 0110 in N-E-S-W order, a bend turned a quarter turn clockwise. */
  lemma CornerTile()
    ensures RoadMask(0, 0) == 6 && RoadAt(0, 0) == Road(Bend, -1)
  {
  }

  /** Number of building assets a house is drawn from. */
  const NumBuildingModels: int := 5

  /** What a House tile receives: nothing, or a building of a given model
      facing one of its Street neighbours. */
  datatype Building = NoBuilding | Building(model: int, facing: Dir)

  /** The house placement at (row, col): the facing is drawn among the
      directions of the Street neighbours, and no building is placed when
      there is none. */
  function HouseAt(row: int, col: int, facingDraw: Draw, modelDraw: Draw): (b: Building)
    ensures b.Building? <==> exists d: Dir :: NeighbourTile(row, col, d) == Street
    ensures b.Building? ==> NeighbourTile(row, col, b.facing) == Street
    ensures b.Building? ==> 0 <= b.model < NumBuildingModels
  {
    var options := StreetDirs(row, col);
    StreetDirsMembers(row, col);
    if |options| == 0 then NoBuilding
    else
      var dir := options[RandomInt(facingDraw, |options|)];
      assert dir in options;
      Building(RandomInt(modelDraw, NumBuildingModels), dir)
  }

  /** The building's rotation in quarter turns, (2 - dir) * pi/2. */
  function BuildingQuarterTurns(facing: Dir): int
  {
    2 - facing
  }

  /** Building assets face south unrotated; the rotation turns that front
      towards the chosen Street neighbour. */
  lemma BuildingFacesStreet(row: int, col: int, facingDraw: Draw, modelDraw: Draw)
    requires HouseAt(row, col, facingDraw, modelDraw).Building?
    ensures var b := HouseAt(row, col, facingDraw, modelDraw);
            NeighbourTile(row, col, RotateDir(S, BuildingQuarterTurns(b.facing))) == Street
  {
  }

  /** On this map the only House tiles left without a building are the
      centres of the 3 x 3 blocks. */
  lemma HousePlacement(row: int, col: int, facingDraw: Draw, modelDraw: Draw)
    requires TileAt(row, col) == House
    ensures HouseAt(row, col, facingDraw, modelDraw).NoBuilding? <==>
              row % BlockPeriod == 2 && col % BlockPeriod == 2
  {
    HouseStreetNeighbours(row, col);
    StreetDirsMembers(row, col);
    if |StreetDirs(row, col)| > 0 {
      assert StreetDirs(row, col)[0] in StreetDirs(row, col);
    }
  }
}
