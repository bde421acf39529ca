/** Sprites, their axis-aligned bounding boxes, the collision test and the
    playfield grid of the snake game. Coordinates are exact reals in the
    playfield's logical units; the z component of the source's vectors is
    never read by the game logic and is left out. */
module Geometry {

  datatype Vec2 = Vec2(x: real, y: real)

  datatype Direction = Up | Down | Left | Right

  function Opposite(d: Direction): Direction {
    match d
    case Up => Down
    case Down => Up
    case Left => Right
    case Right => Left
  }

  /** A positioned, sized sprite together with the movement state the head uses.
      The render-only fields (vertex array, texture, angle) are left out. */
  datatype Sprite = Sprite(
    pos: Vec2,
    prevpos: Vec2,
    dimensions: Vec2,
    moving: Direction,
    prevmoving: Direction,
    vel: real)

  function Abs(v: real): real {
    if v < 0.0 then -v else v
  }

  /** Upper-right corner of the bounding box. */
  function PMax(s: Sprite): Vec2 {
    Vec2(s.pos.x + s.dimensions.x / 2.0, s.pos.y + s.dimensions.y / 2.0)
  }

  /** Lower-left corner of the bounding box. */
  function PMin(s: Sprite): Vec2 {
    Vec2(s.pos.x - s.dimensions.x / 2.0, s.pos.y - s.dimensions.y / 2.0)
  }

  /** The bounding box is centred on the sprite's position and has its
      dimensions as extent. */
  lemma BoxIsCentredOnPos(s: Sprite)
    ensures (PMax(s).x + PMin(s).x) / 2.0 == s.pos.x && (PMax(s).y + PMin(s).y) / 2.0 == s.pos.y
    ensures PMax(s).x - PMin(s).x == s.dimensions.x && PMax(s).y - PMin(s).y == s.dimensions.y
  {
  }

  /** Inclusive AABB overlap: the boxes meet on both axes, touching edges
      included. */
  predicate Collides(one: Sprite, two: Sprite) {
    var collisionX := PMax(one).x >= PMin(two).x && PMax(two).x >= PMin(one).x;
    var collisionY := PMax(one).y >= PMin(two).y && PMax(two).y >= PMin(one).y;
    collisionX && collisionY
  }

  /** Equivalently, on each axis the centres are no further apart than the
      sum of the half-extents. */
  lemma CollidesIffCentresClose(one: Sprite, two: Sprite)
    ensures Collides(one, two) <==>
      Abs(one.pos.x - two.pos.x) <= (one.dimensions.x + two.dimensions.x) / 2.0 &&
      Abs(one.pos.y - two.pos.y) <= (one.dimensions.y + two.dimensions.y) / 2.0
  {
  }

  lemma CollidesSymmetric(one: Sprite, two: Sprite)
    ensures Collides(one, two) == Collides(two, one)
  {
  }

  /** Two sprites on the same point with non-negative dimensions collide. */
  lemma SamePosCollides(one: Sprite, two: Sprite)
    requires one.pos == two.pos
    requires one.dimensions.x >= 0.0 && one.dimensions.y >= 0.0
    requires two.dimensions.x >= 0.0 && two.dimensions.y >= 0.0
    ensures Collides(one, two)
  {
  }

  /** Boxes whose edges just touch on one axis and overlap on the other
      collide: the right edge of `one` on the left edge of `two`, or the top
      edge of `one` on the bottom edge of `two`. */
  lemma TouchingEdgesCollide(one: Sprite, two: Sprite)
    requires one.dimensions.x >= 0.0 && two.dimensions.x >= 0.0
    requires one.dimensions.y >= 0.0 && two.dimensions.y >= 0.0
    requires (PMax(one).x == PMin(two).x && PMax(one).y >= PMin(two).y && PMax(two).y >= PMin(one).y) ||
             (PMax(one).y == PMin(two).y && PMax(one).x >= PMin(two).x && PMax(two).x >= PMin(one).x)
    ensures Collides(one, two)
  {
  }

  /** Centres further apart than the sum of the half-extents on some axis
      never collide. */
  lemma SeparatedNeverCollide(one: Sprite, two: Sprite)
    requires Abs(one.pos.x - two.pos.x) > (one.dimensions.x + two.dimensions.x) / 2.0 ||
             Abs(one.pos.y - two.pos.y) > (one.dimensions.y + two.dimensions.y) / 2.0
    ensures !Collides(one, two)
  {
  }

  // The playfield: 812 by 616 units, a grid of 28-unit cells, 29 columns by
  // 22 rows, cell centres at 14 + 28 * k; every sprite of the game is 27 by 27.

  const Width: real := 812.0
  const Height: real := 616.0
  const CellSize: real := 28.0
  const CellCentre: real := 14.0
  const Cols: nat := 29
  const Rows: nat := 22
  const SpriteSide: real := 27.0

  /** The grid index a coordinate falls in (rounding down). */
  function CellIndex(v: real): int {
    ((v - CellCentre) / CellSize).Floor
  }

  function CentreOf(k: int): real {
    CellCentre + CellSize * k as real
  }

  /** The coordinate is the centre of a grid cell. */
  predicate IsCentre(v: real) {
    v == CentreOf(CellIndex(v))
  }

  predicate OnGrid(p: Vec2) {
    IsCentre(p.x) && IsCentre(p.y)
  }

  /** The centre of cell k is on the grid and its index is k. */
  lemma CentreIndex(k: int)
    ensures CellIndex(CentreOf(k)) == k
    ensures IsCentre(CentreOf(k))
  {
    assert (CentreOf(k) - CellCentre) / CellSize == k as real;
  }

  /** A grid coordinate moved by a whole number of cells stays on the grid. */
  lemma CentreShift(v: real, k: int)
    requires IsCentre(v)
    ensures IsCentre(v + CellSize * k as real)
    ensures CellIndex(v + CellSize * k as real) == CellIndex(v) + k
  {
    var c := CellIndex(v);
    assert v + CellSize * k as real == CentreOf(c + k);
    CentreIndex(c + k);
  }

  /** On the grid, coordinates 27 or fewer units apart are the same centre. */
  lemma GridCoordsClose(a: real, b: real)
    requires IsCentre(a) && IsCentre(b)
    ensures Abs(a - b) <= SpriteSide <==> a == b
  {
    var ka, kb := CellIndex(a), CellIndex(b);
    assert a - b == CellSize * (ka - kb) as real;
    if ka - kb >= 1 {
      assert a - b >= CellSize;
    } else if ka - kb <= -1 {
      assert a - b <= -CellSize;
    }
  }

  predicate GridSprite(s: Sprite) {
    OnGrid(s.pos) && s.dimensions == Vec2(SpriteSide, SpriteSide)
  }

  /** Between grid-aligned 27 by 27 sprites the inclusive AABB test holds
      exactly when the two occupy the same cell: neighbouring cells leave a
      one-unit gap. */
  lemma GridCollision(one: Sprite, two: Sprite)
    requires GridSprite(one) && GridSprite(two)
    ensures Collides(one, two) <==> one.pos == two.pos
  {
    CollidesIffCentresClose(one, two);
    GridCoordsClose(one.pos.x, two.pos.x);
    GridCoordsClose(one.pos.y, two.pos.y);
  }

  /** A grid point lies inside the closed playfield [0, 812] x [0, 616]
      exactly when its cell is one of the 29 x 22 cells. */
  lemma InsideIffOnBoard(p: Vec2)
    requires OnGrid(p)
    ensures (0.0 <= p.x <= Width && 0.0 <= p.y <= Height) <==>
            (0 <= CellIndex(p.x) < Cols && 0 <= CellIndex(p.y) < Rows)
  {
    var cx, cy := CellIndex(p.x), CellIndex(p.y);
    assert p.x == CellCentre + CellSize * cx as real;
    assert p.y == CellCentre + CellSize * cy as real;
    if cx < 0 { assert cx as real <= -1.0; }
    if cx >= Cols { assert cx as real >= 29.0; }
    if cy < 0 { assert cy as real <= -1.0; }
    if cy >= Rows { assert cy as real >= 22.0; }
  }
}
