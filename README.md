# MiniCity simulation core in Dafny

MiniCity builds a small city and drives cars around it. The map is 13 x 13 tiles. Every row and every column that is a multiple of 4 is a street, and the remaining tiles are 3 x 3 blocks of houses. When the city is built, each Street tile gets a road piece. The piece and its rotation are looked up in a 16-entry table, indexed by the tile's street-neighbour mask (N = 1, E = 2, S = 4, W = 8). Each House tile with a Street neighbour gets a building facing one of them. The nine block centres get none. Then twenty cars are spawned on random Street tiles. On every frame each car advances along its current tile. When it passes the end of the tile, it moves one tile and picks its next heading at random among the streets ahead, never turning back.

This project models that discrete core of `src/CityScene.ts` and proves the following:

- the map rule;
- the road table's agreement with the tile's neighbours;
- where houses get buildings;
- that a car never leaves the street network, never plans a U-turn, never meets a dead end on this map, and keeps its turn in {-1, 0, 1} and its progress within the current segment.

Modules, one per file:

- `Directions` (directions.dfy): headings 0..3, `getOppositeDir`, grid steps, rotations in quarter turns, `Car.getTurn` and `getTurnDistance`.
- `Randomness` (randomness.dfy): `randomInt`. `Math.random()` is a caller-supplied `Draw` in [0, 1).
- `Grid` (grid.dfy): `Tile`, the map dimensions, the block rule and the street-neighbour lists.
- `Roads` (roads.dfy): the neighbour mask, the `roads` table and house facing, from `initialize`.
- `Cars` (cars.dfy): the `Car` class, the navigation options, and `Tick`. `Tick` is a function that specifies one step of `updateCar`, and its invariant is `OnNetwork`.
- `City` (city.dfy): the `CityScene` class. It holds the map construction, `getTile`, `spawnRandomCar` with its rejection loop, `updateCar` updating a `Car` in place, and the `update` loop. Each method is proved against the functions above.

Rotations are counted in quarter turns q, so the rotation is q * pi/2. Rendering puts the column on x and the row on z. A turn by +pi/2 about the vertical axis therefore takes a connector pointing in direction d to direction (d - q) mod 4 (`RotateDir`).

Each asset's unrotated connectors are taken from the table entries that have rotation 0:

- end piece: W;
- straight: E and W;
- bend: N and E;
- intersection: N, E and W;
- crossroad: all four.

The whole table is consistent with this reading: `RoadTableAligned` proves it for every mask.

Two points about the behaviour of `updateCar`:

- The dead-end branch (src/CityScene.ts:271-274) runs after `dir := nextDir` (line 262). It sets `distance` to the old turn distance and returns, leaving `nextDir` unchanged. So the next tick computes turn 0, and the car may commit again: it is not stalled for good. The model captures exactly the branch (`TickMoves`). On this map the branch is never reached (`CommitCarriesOver`).
- The options are collected by testing `dir != getOppositeDir(d)` for each candidate `d` (lines 267-270). `NavOptionsMembers` proves this equals `d != OppositeDir(dir)`: the options never include the heading back.

## Model

| member | source | states |
|---|---|---|
| Directions.OppositeDir | src/CityScene.ts:40-42 | the opposite heading differs from the heading; N and S are opposite, and so are E and W |
| Directions.OppositeDirInvolutive | src/CityScene.ts:40-42 | taking the opposite twice gives back the heading |
| Directions.RowStep | src/CityScene.ts:258-261 | the row change of one step in a heading: -1 for N, +1 for S, 0 otherwise; its properties are in `StepGeometry` |
| Directions.ColStep | src/CityScene.ts:258-261 | the column change of one step in a heading: +1 for E, -1 for W, 0 otherwise; its properties are in `StepGeometry` |
| Directions.StepGeometry | src/CityScene.ts:258-261 | every heading moves exactly one tile, along one axis; distinct headings reach distinct tiles; a step is undone exactly by a step in the opposite heading |
| Directions.RotateDir | src/CityScene.ts:161-178 | turning by q quarter turns and then back by q returns the original heading |
| Directions.Turn | src/CityScene.ts:66-72 | the turn t is in {-1, 0, 1, 2} and satisfies dir + t = nextDir (mod 4); it is 0 iff the heading is kept, and 2 iff nextDir is the opposite of dir; so every other pair gives a turn in {-1, 0, 1} |
| Directions.TurnDistance | src/CityScene.ts:75-79 | every turn distance is positive; anything other than a left or right turn covers distance 1 |
| Directions.TurnDistanceOrder | src/CityScene.ts:75-79 | right arc (0.3 pi/2) < straight (1) < left arc (0.7 pi/2), and the shortest is still over 0.3 |
| Randomness.RandomInt | src/CityScene.ts:309-311 | floor(draw * n) is a valid index in [0, n) for every draw in [0, 1) |
| Randomness.RandomIntCoversRange | src/CityScene.ts:309-311 | every index in [0, n) is the result of some draw |
| Grid.TileAt | src/CityScene.ts:106-109 | the tile is None exactly for coordinates outside the 13 x 13 map |
| Grid.StreetDirs | src/CityScene.ts:236-240 | the Street-neighbour directions collected in the order N, E, S, W (also the house options of lines 199-203); its properties are in `StreetDirsMembers` and `StreetDirsOrdered` |
| Grid.StreetDirsMembers | src/CityScene.ts:199-203 | the collected list holds exactly the directions whose neighbour is a Street tile |
| Grid.StreetDirsOrdered | src/CityScene.ts:236-240 | the collected list is in the order N, E, S, W, with no repeats |
| Grid.StreetTileHasTwoStreetNeighbours | src/CityScene.ts:95-100 | on this map every Street tile has at least two Street neighbours |
| Grid.HouseStreetNeighbours | src/CityScene.ts:199-204 | a House tile has a Street neighbour iff it is not the centre of its 3 x 3 block |
| Roads.RoadMask | src/CityScene.ts:187-191 | bit N=1, E=2, S=4 or W=8 of the 4-bit mask is set iff the neighbour in that direction is a Street tile |
| Roads.RoadAt | src/CityScene.ts:161-193 | the entry of the 16-entry `Roads` table at the tile's neighbour mask; its properties are in `RoadTableAligned`, `RoadTableShape`, `StreetTileRoad` and `CornerTile` |
| Roads.RoadTableAligned | src/CityScene.ts:161-178 | for every nonzero mask, the table's piece turned by the table's rotation has its connectors on exactly the mask's open sides |
| Roads.RoadTableShape | src/CityScene.ts:161-178 | only mask 0 has no piece; one open side gives an end piece, masks 5 and 10 a straight, the other two-sided masks a bend, three sides an intersection, and four sides the crossroad |
| Roads.StreetTileRoad | src/CityScene.ts:186-193 | every Street tile on this map has a nonzero mask, so empty entry 0 is never used; its piece's rotated connectors point exactly at its Street neighbours |
| Roads.CornerTile | src/CityScene.ts:168 | tile (0, 0) has mask 6 (east and south) and gets the bend rotated by -pi/2 |
| Roads.HouseAt | src/CityScene.ts:198-206 | a building is placed iff some neighbour is a Street tile; it faces such a neighbour, and its model index is below 5 |
| Roads.BuildingFacesStreet | src/CityScene.ts:208 | the rotation (2 - dir) quarter turns turns the building's south-facing front towards the chosen Street neighbour |
| Roads.HousePlacement | src/CityScene.ts:199-204 | on this map exactly the block centres receive no building |
| Cars.SpeedFromDraw | src/CityScene.ts:61-63 | the speed lies in [1/120, 1/20) |
| Cars.Car.constructor | src/CityScene.ts:56-64 | a new car is at the given tile with heading N, next heading N, progress 0 and a speed drawn from the range |
| Cars.NavOptions | src/CityScene.ts:265-270 | the options a car collects on arrival, in the order N, E, S, W; its properties are in `NavOptionsMembers`, `NavOptionsOrdered`, `NavOptionsAtMostThree` and `NoDeadEnds` |
| Cars.NavOptionsMembers | src/CityScene.ts:265-270 | the options are exactly the directions that do not reverse the car's heading and lead to a Street tile |
| Cars.NavOptionsOrdered | src/CityScene.ts:265-270 | the options are in the order N, E, S, W, with no repeats |
| Cars.NavOptionsAtMostThree | src/CityScene.ts:265-270 | the heading back is never an option, so a car has at most three options |
| Cars.NoDeadEnds | src/CityScene.ts:271-274 | on this map a car standing on a Street tile has at least one option, whatever its heading |
| Cars.Tick | src/CityScene.ts:253-276 | one tick of `updateCar` without the pose; the speed never changes. Its branches are stated by `TickMoves`, its invariant by `TickPreservesOnNetwork`, and `UpdateCar` is proved equal to it |
| Cars.TickMoves | src/CityScene.ts:256-276 | without a commit only the progress grows, by the speed; on a commit the car moves exactly one tile in its old next heading, which becomes its heading; then either it takes one of the options as its next heading and carries over the surplus progress, or, with no option, its progress becomes the old turn distance and its next heading stays, so its next turn is 0 |
| Cars.TickPreservesOnNetwork | src/CityScene.ts:253-279 | a tick keeps the invariant: Street tile, Street tile ahead, no planned U-turn, speed in range, 0 <= distance <= turn distance; hence the turn stays in {-1, 0, 1} |
| Cars.CommitCarriesOver | src/CityScene.ts:275-276 | on this map a commit never stalls; the new progress is the old progress plus the speed minus the old turn distance, which lies in (0, speed] |
| Cars.NeverTurnsBack | src/CityScene.ts:267-270 | after a commit, the tile the car heads for is never the one it just left |
| Cars.SpawnOnNetwork | src/CityScene.ts:241-242 | a car put on a Street tile with dir = nextDir towards a Street neighbour satisfies the invariant, and its first turn is 0 |
| City.CityScene.constructor | src/CityScene.ts:94-100 | the map is filled with 13 rows of 13 tiles, Street where the row or column is a multiple of 4 and House elsewhere, and there are no cars yet |
| City.CityScene.GetTile | src/CityScene.ts:106-109 | looking up the map gives the block rule's tile inside the map and None outside it |
| City.CityScene.StreetNeighbourDirs | src/CityScene.ts:236-240 | the list pushed in the order N, E, S, W equals the Street-neighbour list |
| City.CityScene.FreeOptions | src/CityScene.ts:265-270 | the list pushed in the order N, E, S, W equals the navigation options |
| City.CityScene.DrawStreetCell | src/CityScene.ts:232-235 | the rejection loop ends on a Street tile, namely the first drawn cell that is one |
| City.CityScene.SpawnRandomCar | src/CityScene.ts:228-245 | a fresh car is appended after the existing ones; it stands on the first drawn Street tile, with dir = nextDir the Street neighbour its direction draw selects, progress 0 and speed from its draw; the scene invariant is kept |
| City.CityScene.SpawnCars | src/CityScene.ts:216-218 | twenty spawns append twenty fresh cars, the i-th placed as `SpawnRandomCar` places it with the i-th draws, and keep the scene invariant |
| City.CityScene.UpdateCar | src/CityScene.ts:253-279 | updating the car's fields in place leaves the car in the state `Tick` gives for its old state and the draw |
| City.CityScene.Update | src/CityScene.ts:247-251 | every car advances by exactly one `Tick` with its own draw, and every car stays on the street network |

## Left out

- The pose computation after a tick (src/CityScene.ts:280-298) and `rotate2D` (lines 302-307) are left out. They are floating-point trigonometry that only places the car's mesh for rendering. For the same reason, the turn and turn distance recomputed at lines 277-278 are dropped: only the pose reads them.
- Floating-point arithmetic is modelled as real arithmetic. pi/2 is the shortest decimal that rounds to the double `0.5 * Math.PI`, and float rounding is not modelled.
- `Math.random()` becomes a caller-supplied `Draw` in [0, 1) (`randomInt` at lines 309-311 is otherwise modelled exactly). The spawn loop of lines 232-235 draws until it hits a Street tile. The model therefore takes a finite list of draws that contains such a hit. A run of draws that never hits a Street tile, on which the source would loop forever, is not modelled.
- In the placement loop of `initialize` (lines 183-214), the per-tile computations are modelled: the neighbour mask and table lookup by `RoadAt`, and the house options, facing draw and model draw by `HouseAt`. Only the iteration over the tiles and the `clone` and `add` calls are left out.
- Asset loading, lights, the ground plane, scene-graph `add`/`clone`, the choice of car model (line 229) and attaching the camera (lines 111-158, 181-182, 219-225) are left out. They are three.js and GLTF calls with no simulation logic.
- Building assets are taken to face south unrotated, and road assets to have the connectors of their rotation-0 table entries. Both are properties of the asset files, which are not part of this model.
- `src/main.ts`, `src/FirstPersonControls.ts` and `src/InputController.ts` are not part of this model. They hold the render loop, DOM and pointer-lock input, and the camera's quaternion math.
- `Car.getTurn` (lines 67-72) is modelled as the function `Turn` of the car's two heading fields, not as a member of the `Car` class.
- The camera passed to the `CityScene` constructor and the car's `object` handle are not modelled. The core neither reads nor changes them, except when rendering.
