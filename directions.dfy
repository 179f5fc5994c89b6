/** Compass directions, the grid step they stand for, turns between two
    headings and the arc length a car covers for each kind of turn. */
module Directions {

  /** A heading: N = 0, E = 1, S = 2, W = 3, with cyclic arithmetic mod 4. */
  type Dir = d: int | 0 <= d < 4

  const N: Dir := 0
  const E: Dir := 1
  const S: Dir := 2
  const W: Dir := 3

  /** The reverse heading. */
  function OppositeDir(d: Dir): (r: Dir)
    ensures r != d
    ensures (r == N <==> d == S) && (r == E <==> d == W)
  {
    (d + 2) % 4
  }

  lemma OppositeDirInvolutive(d: Dir)
    ensures OppositeDir(OppositeDir(d)) == d
  {
  }

  /** Row offset of one step in direction `d` (north is row - 1). */
  function RowStep(d: Dir): int
  {
    if d == N then -1 else if d == S then 1 else 0
  }

  /** Column offset of one step in direction `d` (east is col + 1). */
  function ColStep(d: Dir): int
  {
    if d == E then 1 else if d == W then -1 else 0
  }

  /** Each direction moves exactly one cell, distinct directions move to
      distinct cells, and the opposite direction undoes the step. */
  lemma StepGeometry(d: Dir, e: Dir)
    ensures (RowStep(d) == 0) != (ColStep(d) == 0)
    ensures -1 <= RowStep(d) <= 1 && -1 <= ColStep(d) <= 1
    ensures (RowStep(d) == RowStep(e) && ColStep(d) == ColStep(e)) <==> d == e
    ensures (RowStep(e) == -RowStep(d) && ColStep(e) == -ColStep(d)) <==> e == OppositeDir(d)
  {
  }

  /** The heading that a connector pointing in direction `d` ends up in when
      an object is turned by `q` quarter turns about the vertical axis.
      Rendering places column along x and row along z, so a turn by +pi/2
      about y takes east to north: each positive quarter turn moves the
      heading one step counter-clockwise. */
  function RotateDir(d: Dir, q: int): (r: Dir)
    ensures (r + q) % 4 == d
  {
    (d - q) % 4
  }

  /** The turn from heading `dir` to heading `nextDir`:
      -1 is a left turn, 0 straight on, 1 a right turn and 2 a U-turn. */
  function Turn(dir: Dir, nextDir: Dir): (t: int)
    ensures -1 <= t <= 2
    ensures (dir + t) % 4 == nextDir
    ensures t == 0 <==> nextDir == dir
    ensures t == 2 <==> nextDir == OppositeDir(dir)
  {
    var raw := nextDir - dir;
    var once := if raw > 1 then raw - 4 else raw;
    if once < -1 then once + 4 else once
  }

  /** pi/2 as the shortest decimal that rounds to the double `0.5 * Math.PI`;
      reals stand for the program's floats. */
  const HalfPi: real := 1.5707963267948966

  /** Length of the path across one tile for a turn of the given kind:
      a wide left arc, a tight right arc, or a straight tile of length 1. */
  function TurnDistance(turn: int): (r: real)
    ensures r > 0.0
    ensures turn != -1 && turn != 1 ==> r == 1.0
  {
    if turn == -1 then 0.7 * HalfPi
    else if turn == 1 then 0.3 * HalfPi
    else 1.0
  }

  /** The three arc lengths are ordered right < straight < left, and the
      shortest of them is still longer than 0.3. */
  lemma TurnDistanceOrder()
    ensures 0.3 < TurnDistance(1) < TurnDistance(0) < TurnDistance(-1)
  {
  }
}
