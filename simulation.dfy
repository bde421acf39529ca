/** The game's simulation as values: one fixed step (head move, direction
    commit, body-chain shift, food check and growth), a batch of steps, the
    start-of-frame steering and position snapshot, the fixed-step step count
    and the end-of-frame terminal checks. The imperative game loop in module
    Loop is proved to compute exactly these functions. */
module Simulation {
  import opened Geometry
  import opened Input

  const FPS: real := 12.0

  /** The fixed simulation interval in seconds, 3 / FPS: a step every
      quarter second. */
  const Tick: real := 0.25

  lemma TickIsThreeFrames()
    ensures Tick == 3.0 / FPS
  {
  }

  /** The simulated time taken by n steps. It is written with the
      interval's value so that sums of step times stay linear arithmetic;
      TicksAreIntervals ties it to Tick. */
  function Ticks(n: int): real {
    n as real * 0.25
  }

  /** n steps take n intervals of Tick, and each further step one more. */
  lemma TicksAreIntervals(n: int)
    ensures Ticks(n) == n as real * Tick
    ensures Ticks(n + 1) == Ticks(n) + Tick
  {
  }

  /** Two successive results of the C library's rand(), the first for the
      column and the second for the row. */
  datatype Draw = Draw(first: nat, second: nat)

  /** The simulated world: the head, the body segments (segment 0 nearest the
      head) and the food. */
  datatype Scene = Scene(head: Sprite, body: seq<Sprite>, food: Sprite)

  /** The head at start-up: cell (14, 11), 27 by 27, speed 28, moving right.
      Its previous direction is left unset by the program, so it is a
      parameter here; its previous position is overwritten before it is read. */
  function InitialHead(prevmoving: Direction): Sprite {
    Sprite(Vec2(406.0, 322.0), Vec2(406.0, 322.0), Vec2(SpriteSide, SpriteSide), Right, prevmoving, 28.0)
  }

  /** The food at start-up: cell (20, 11), 27 by 27; its movement fields are
      never read. */
  const InitialFood: Sprite :=
    Sprite(Vec2(574.0, 322.0), Vec2(574.0, 322.0), Vec2(SpriteSide, SpriteSide), Right, Right, 1.5)

  function InitialScene(prevmoving: Direction): Scene {
    Scene(InitialHead(prevmoving), [], InitialFood)
  }

  /** The point `dist` units from `p` in direction `d`: left is -x, right
      +x, up +y, down -y. */
  function Advance(p: Vec2, d: Direction, dist: real): Vec2 {
    match d
    case Left => Vec2(p.x - dist, p.y)
    case Right => Vec2(p.x + dist, p.y)
    case Up => Vec2(p.x, p.y + dist)
    case Down => Vec2(p.x, p.y - dist)
  }

  lemma AdvanceAdditive(p: Vec2, d: Direction, a: real, b: real)
    ensures Advance(Advance(p, d, a), d, b) == Advance(p, d, a + b)
  {
  }

  /** The head moved by its speed along its current direction; nothing but
      the position changes. */
  function Moved(h: Sprite): (r: Sprite)
    ensures r == h.(pos := r.pos)
    ensures r.pos == Advance(h.pos, h.moving, h.vel)
  {
    var p := h.pos;
    match h.moving
    case Left => h.(pos := p.(x := p.x - h.vel))
    case Right => h.(pos := p.(x := p.x + h.vel))
    case Up => h.(pos := p.(y := p.y + h.vel))
    case Down => h.(pos := p.(y := p.y - h.vel))
  }

  /** A move changes exactly one coordinate, by the speed. */
  lemma MoveIsAxisAligned(h: Sprite)
    ensures Moved(h).pos.x == h.pos.x || Moved(h).pos.y == h.pos.y
    ensures Abs(Moved(h).pos.x - h.pos.x) + Abs(Moved(h).pos.y - h.pos.y) == Abs(h.vel)
  {
  }

  /** The food moved to the centre of the cell chosen by two rand() results:
      column first % 29, row second % 22. Only the position changes, and it
      is a grid centre inside [14, 798] x [14, 602]. */
  function Relocated(food: Sprite, d: Draw): (r: Sprite)
    ensures r == food.(pos := r.pos)
    ensures OnGrid(r.pos)
    ensures CellIndex(r.pos.x) == d.first % Cols && CellIndex(r.pos.y) == d.second % Rows
    ensures 14.0 <= r.pos.x <= 798.0 && 14.0 <= r.pos.y <= 602.0
  {
    var col := d.first % Cols;
    var row := d.second % Rows;
    CentreIndex(col);
    CentreIndex(row);
    food.(pos := Vec2(14.0 + (col * 28) as real, 14.0 + (row * 28) as real))
  }

  /** The food's new cell does not depend on where the snake is: every one
      of the 29 x 22 cells, occupied or not, is the result of some draw. */
  lemma EveryCellReachable(food: Sprite, col: nat, row: nat)
    requires col < Cols && row < Rows
    ensures Relocated(food, Draw(col, row)).pos == Vec2(CentreOf(col), CentreOf(row))
  {
  }

  /** A freshly grown body segment at `at`, 27 by 27; its movement fields and
      previous position are never read before the next shift overwrites the
      latter. */
  function NewSegment(at: Vec2): Sprite {
    Sprite(at, at, Vec2(SpriteSide, SpriteSide), Right, Right, 0.0)
  }

  /** The body chain after one shift, segment by segment from the head: each
      segment remembers where it was and takes the place its leader held,
      `lead` for segment 0. No segment changes anything but its two
      positions. */
  function ShiftChain(lead: Vec2, body: seq<Sprite>): (r: seq<Sprite>)
    ensures |r| == |body|
    ensures forall i {:trigger r[i]} :: 0 <= i < |body| ==>
      r[i] == body[i].(prevpos := body[i].pos, pos := if i == 0 then lead else body[i - 1].pos)
    decreases |body|
  {
    if body == [] then []
    else [body[0].(prevpos := body[0].pos, pos := lead)] + ShiftChain(body[0].pos, body[1..])
  }

  /** The positions of the segments, in body order. */
  function Positions(body: seq<Sprite>): seq<Vec2> {
    seq(|body|, i requires 0 <= i < |body| => body[i].pos)
  }

  /** The previous positions of the segments, in body order. */
  function PrevPositions(body: seq<Sprite>): seq<Vec2> {
    seq(|body|, i requires 0 <= i < |body| => body[i].prevpos)
  }

  /** The shift moves the positions one slot towards the tail with `lead`
      entering slot 0, and every segment's previous position is its old
      position. */
  lemma ShiftIsPureShift(lead: Vec2, body: seq<Sprite>)
    requires |body| > 0
    ensures Positions(ShiftChain(lead, body)) == [lead] + Positions(body)[..|body| - 1]
    ensures PrevPositions(ShiftChain(lead, body)) == Positions(body)
  {
    var r := ShiftChain(lead, body);
    assert Positions(r) == [lead] + Positions(body)[..|body| - 1] by {
      forall i | 0 <= i < |body|
        ensures Positions(r)[i] == ([lead] + Positions(body)[..|body| - 1])[i]
      {
      }
    }
  }

  /** The three-segment example: [P1, P2, P3] behind a head that was at P0
      become [P0, P1, P2]. */
  lemma ShiftThree(p0: Vec2, s1: Sprite, s2: Sprite, s3: Sprite)
    ensures Positions(ShiftChain(p0, [s1, s2, s3])) == [p0, s1.pos, s2.pos]
  {
    ShiftIsPureShift(p0, [s1, s2, s3]);
  }

  /** Where a segment grown in this step goes: the tail's previous position
      (its place before the shift) or, with no body, the head's. */
  function GrowthPoint(head: Sprite, shifted: seq<Sprite>): Vec2 {
    if |shifted| > 0 then shifted[|shifted| - 1].prevpos else head.prevpos
  }

  /** Whether the head, after its move, is on the food. */
  predicate Eats(w: Scene) {
    Collides(Moved(w.head), w.food)
  }

  /** The first part of a step: the head moves and commits its direction,
      and the body shifts behind the head's snapshot position. */
  function Advanced(w: Scene): Scene {
    var head := Moved(w.head).(prevmoving := w.head.moving);
    Scene(head, ShiftChain(head.prevpos, w.body), w.food)
  }

  /** The second part of a step: a head on the food relocates it and grows
      one segment where the tail was before the shift. */
  function Fed(w: Scene, d: Draw): Scene {
    if Collides(w.head, w.food) then
      Scene(w.head, w.body + [NewSegment(GrowthPoint(w.head, w.body))], Relocated(w.food, d))
    else
      w
  }

  /** One simulation step: move the head, commit its direction, shift the
      body behind the head's snapshot position, and on reaching the food
      relocate it and grow one segment at the tail's old place. */
  function Step(w: Scene, d: Draw): (r: Scene)
    ensures r.head == Moved(w.head).(prevmoving := w.head.moving)
    ensures |r.body| == |w.body| + (if Eats(w) then 1 else 0)
    ensures forall i {:trigger r.body[i]} :: 0 <= i < |w.body| ==>
      r.body[i] == w.body[i].(prevpos := w.body[i].pos, pos := if i == 0 then w.head.prevpos else w.body[i - 1].pos)
    ensures Eats(w) ==>
      r.body[|w.body|] == NewSegment(if |w.body| > 0 then w.body[|w.body| - 1].pos else w.head.prevpos) &&
      r.food == Relocated(w.food, d)
    ensures !Eats(w) ==> r.food == w.food
  {
    var a := Advanced(w);
    assert |w.body| > 0 ==> a.body[|a.body| - 1].prevpos == w.body[|w.body| - 1].pos;
    assert Eats(w) ==> Fed(a, d).body[|w.body|] == NewSegment(GrowthPoint(a.head, a.body));
    Fed(a, d)
  }

  /** Growth on an empty body puts the first segment where the head was. */
  lemma FirstGrowth(w: Scene, d: Draw)
    requires w.body == [] && Eats(w)
    ensures Step(w, d).body == [NewSegment(w.head.prevpos)]
  {
  }

  /** The steps run in one frame, in order, step k using draw k. */
  function RunSteps(w: Scene, ds: seq<Draw>): (r: Scene)
    ensures |w.body| <= |r.body| <= |w.body| + |ds|
    ensures r.head.prevpos == w.head.prevpos
    decreases |ds|
  {
    if ds == [] then w else Step(RunSteps(w, ds[..|ds| - 1]), ds[|ds| - 1])
  }

  /** Running one more step extends the run by that step. */
  lemma RunStepsExtend(w: Scene, ds: seq<Draw>, n: nat)
    requires n < |ds|
    ensures RunSteps(w, ds[..n + 1]) == Step(RunSteps(w, ds[..n]), ds[n])
  {
    assert ds[..n + 1][..n] == ds[..n];
  }

  /** The distance covered by n moves of `v` each. */
  function Travel(n: nat, v: real): real {
    if n == 0 then 0.0 else Travel(n - 1, v) + v
  }

  lemma {:induction false} TravelIsProduct(n: nat, v: real)
    ensures Travel(n, v) == n as real * v
  {
    if n > 0 {
      TravelIsProduct(n - 1, v);
      assert (n - 1) as real * v + v == n as real * v;
    }
  }

  /** Over n steps the head keeps its direction and speed, travels n moves
      of `vel` along that direction and, after at least one step, has
      committed it. */
  lemma {:induction false} RunStepsHead(w: Scene, ds: seq<Draw>)
    ensures RunSteps(w, ds).head ==
      w.head.(pos := Advance(w.head.pos, w.head.moving, Travel(|ds|, w.head.vel)),
              prevmoving := if ds == [] then w.head.prevmoving else w.head.moving)
    decreases |ds|
  {
    if ds != [] {
      var n := |ds| - 1;
      var rest := ds[..n];
      assert |rest| == n;
      var prev := RunSteps(w, rest);
      assert RunSteps(w, ds) == Step(prev, ds[n]);
      RunStepsHead(w, rest);
      AdvanceAdditive(w.head.pos, w.head.moving, Travel(n, w.head.vel), w.head.vel);
    }
  }

  /** Moving right for n steps adds n moves of `vel` to x and leaves y alone. */
  lemma StraightRight(w: Scene, ds: seq<Draw>)
    requires w.head.moving == Right
    ensures RunSteps(w, ds).head.pos.x == w.head.pos.x + Travel(|ds|, w.head.vel)
    ensures RunSteps(w, ds).head.pos.y == w.head.pos.y
  {
    RunStepsHead(w, ds);
  }

  /** At the game's speed of one cell per step, n steps right move the head
      n cells right. */
  lemma StraightRightCells(w: Scene, ds: seq<Draw>)
    requires w.head.moving == Right && w.head.vel == CellSize
    ensures RunSteps(w, ds).head.pos.x == w.head.pos.x + CellSize * |ds| as real
    ensures RunSteps(w, ds).head.pos.y == w.head.pos.y
  {
    RunStepsHead(w, ds);
    TravelIsProduct(|ds|, w.head.vel);
  }

  /** The head's position snapshot is taken once per frame, so after any
      number of steps in one frame, segment 0 sits on the frame-start head
      position rather than where the head was one step earlier. */
  lemma {:induction false} SegmentZeroGetsSnapshot(w: Scene, ds: seq<Draw>)
    requires ds != [] && |RunSteps(w, ds).body| > 0
    ensures RunSteps(w, ds).body[0].pos == w.head.prevpos
  {
    var prev := RunSteps(w, ds[..|ds| - 1]);
    assert RunSteps(w, ds) == Step(prev, ds[|ds| - 1]);
  }

  /** Two steps in one frame from the frame start: the head has gone two
      cells on while segment 0 is only at the frame-start position. */
  lemma TwoStepsOneFrame(w: Scene, ds: seq<Draw>)
    requires |ds| == 2
    requires |w.body| > 0 && w.head.prevpos == w.head.pos
    ensures RunSteps(w, ds).body[0].pos == w.head.pos
    ensures RunSteps(w, ds).head.pos == Advance(w.head.pos, w.head.moving, 2.0 * w.head.vel)
  {
    SegmentZeroGetsSnapshot(w, ds);
    RunStepsHead(w, ds);
    TravelIsProduct(2, w.head.vel);
  }

  /** The number of whole intervals in the accumulator: the steps the
      fixed-step loop runs, leaving less than one interval behind. */
  function StepCount(acc: real): (n: nat)
    requires acc >= 0.0
    ensures Ticks(n) <= acc < Ticks(n + 1)
  {
    (acc / Tick).Floor
  }

  /** What the fixed-step loop leaves in the accumulator: less than one
      interval. */
  function Leftover(acc: real): (r: real)
    requires acc >= 0.0
    ensures 0.0 <= r < Tick
  {
    acc - Ticks(StepCount(acc))
  }

  /** A count that leaves between zero and one interval behind is the step
      count: the loop's exit condition pins the number of steps down. */
  lemma StepCountUnique(acc: real, k: nat)
    requires 0.0 <= acc - Ticks(k) < Tick
    ensures StepCount(acc) == k
  {
    var n := StepCount(acc);
    assert n as real < (k + 1) as real;
    assert k as real < (n + 1) as real;
  }

  /** While a whole interval is left after n steps, n is below the count. */
  lemma StepCountAbove(acc: real, n: nat)
    requires acc - Ticks(n) >= Tick
    ensures n < StepCount(acc)
  {
  }

  /** An accumulator of two and a half intervals runs two steps and keeps
      half an interval. */
  lemma StepCountExample()
    ensures StepCount(0.625) == 2
    ensures Leftover(0.625) == 0.125
  {
  }

  /** The start of a frame: the direction mapper runs on the key table, then
      the head's position is snapshotted once for all the frame's steps. */
  function FrameStart(w: Scene, keys: seq<bool>): Scene
    requires |keys| == KeyCount
  {
    w.(head := w.head.(moving := SteerByKeys(w.head.moving, w.head.prevmoving, keys), prevpos := w.head.pos))
  }

  predicate OutOfBounds(p: Vec2) {
    p.x < 0.0 || p.x > Width || p.y < 0.0 || p.y > Height
  }

  predicate HitsOwnBody(w: Scene) {
    exists i :: 0 <= i < |w.body| && Collides(w.head, w.body[i])
  }

  /** The end-of-frame checks: the game ends when the head is outside the
      playfield or touches a body segment. */
  predicate FrameEnds(w: Scene) {
    OutOfBounds(w.head.pos) || HitsOwnBody(w)
  }

  /** The head never faces the reverse of its committed direction. */
  predicate NoReversal(h: Sprite) {
    h.moving != Opposite(h.prevmoving)
  }

  /** A frame keeps the reversal ban: steering never introduces a reversal
      and every step commits the direction it moved in. */
  lemma FrameKeepsNoReversal(w: Scene, keys: seq<bool>, ds: seq<Draw>)
    requires |keys| == KeyCount
    requires NoReversal(w.head) || ds != []
    ensures NoReversal(RunSteps(FrameStart(w, keys), ds).head)
  {
    RunStepsHead(FrameStart(w, keys), ds);
  }

  // Grid alignment: every sprite stays on a cell centre with size 27 and the
  // head keeps speed 28, a whole cell.

  predicate GridScene(w: Scene) {
    GridSprite(w.head) && w.head.vel == CellSize && OnGrid(w.head.prevpos) &&
    GridSprite(w.food) &&
    forall i :: 0 <= i < |w.body| ==> GridSprite(w.body[i])
  }

  lemma InitialSceneOnGrid(prevmoving: Direction)
    ensures GridScene(InitialScene(prevmoving))
  {
    CentreIndex(14);
    CentreIndex(11);
    CentreIndex(20);
    assert InitialHead(prevmoving).pos == Vec2(CentreOf(14), CentreOf(11));
    assert InitialFood.pos == Vec2(CentreOf(20), CentreOf(11));
  }

  lemma MovedOnGrid(h: Sprite)
    requires GridSprite(h) && h.vel == CellSize
    ensures GridSprite(Moved(h))
  {
    CentreShift(h.pos.x, 1);
    CentreShift(h.pos.x, -1);
    CentreShift(h.pos.y, 1);
    CentreShift(h.pos.y, -1);
  }

  lemma StepKeepsGrid(w: Scene, d: Draw)
    requires GridScene(w)
    ensures GridScene(Step(w, d))
  {
    MovedOnGrid(w.head);
    var r := Step(w, d);
    forall i | 0 <= i < |r.body|
      ensures GridSprite(r.body[i])
    {
      if i < |w.body| {
        assert r.body[i].dimensions == w.body[i].dimensions;
        assert r.body[i].pos == if i == 0 then w.head.prevpos else w.body[i - 1].pos;
      } else {
        assert r.body[i] == NewSegment(if |w.body| > 0 then w.body[|w.body| - 1].pos else w.head.prevpos);
      }
    }
  }

  lemma {:induction false} RunStepsKeepGrid(w: Scene, ds: seq<Draw>)
    requires GridScene(w)
    ensures GridScene(RunSteps(w, ds))
    decreases |ds|
  {
    if ds != [] {
      RunStepsKeepGrid(w, ds[..|ds| - 1]);
      StepKeepsGrid(RunSteps(w, ds[..|ds| - 1]), ds[|ds| - 1]);
    }
  }

  /** Every frame keeps the scene grid-aligned. */
  lemma FrameKeepsGrid(w: Scene, keys: seq<bool>, ds: seq<Draw>)
    requires |keys| == KeyCount && GridScene(w)
    ensures GridScene(RunSteps(FrameStart(w, keys), ds))
  {
    RunStepsKeepGrid(FrameStart(w, keys), ds);
  }

  /** On the grid the head eats exactly when its move lands on the food. */
  lemma EatsIffSameCell(w: Scene)
    requires GridScene(w)
    ensures Eats(w) <==> Moved(w.head).pos == w.food.pos
  {
    MovedOnGrid(w.head);
    GridCollision(Moved(w.head), w.food);
  }

  /** On the grid the frame ends exactly when the head has left the 29 x 22
      board or shares a cell with a body segment. */
  lemma FrameEndsOnGrid(w: Scene)
    requires GridScene(w)
    ensures FrameEnds(w) <==>
      !(0 <= CellIndex(w.head.pos.x) < Cols && 0 <= CellIndex(w.head.pos.y) < Rows) ||
      exists i :: 0 <= i < |w.body| && w.body[i].pos == w.head.pos
  {
    InsideIffOnBoard(w.head.pos);
    forall i | 0 <= i < |w.body|
      ensures Collides(w.head, w.body[i]) <==> w.body[i].pos == w.head.pos
    {
      GridCollision(w.head, w.body[i]);
    }
  }

  /** What the reversal ban buys: in a one-step frame with segment 0 one cell
      behind the head, the head lands on neither its old neck nor the cell
      it just left, and segment 0 is again one cell behind it. */
  lemma OneStepFrameAvoidsNeck(w: Scene, keys: seq<bool>, d: Draw)
    requires |keys| == KeyCount && |w.body| > 0 && w.head.vel > 0.0
    requires NoReversal(w.head)
    requires w.body[0].pos == Advance(w.head.pos, w.head.prevmoving, -w.head.vel)
    ensures var r := RunSteps(FrameStart(w, keys), [d]);
      r.head.pos != r.body[0].pos &&
      (|r.body| > 1 ==> r.head.pos != r.body[1].pos) &&
      r.body[0].pos == Advance(r.head.pos, r.head.prevmoving, -r.head.vel)
  {
    var s := FrameStart(w, keys);
    assert RunSteps(s, [d]) == Step(s, d) by {
      assert [d][..0] == [];
    }
    var m := s.head.moving;
    assert m != Opposite(w.head.prevmoving);
    var next := Advance(w.head.pos, m, w.head.vel);
    assert Step(s, d).head.pos == next;
    if |w.body| > 0 {
      assert Step(s, d).body[0].pos == w.head.pos;
    }
    if |Step(s, d).body| > 1 {
      assert Step(s, d).body[1].pos == w.body[0].pos;
      assert next != w.body[0].pos by {
        match m
        case Up =>
        case Down =>
        case Left =>
        case Right =>
      }
    }
  }
}
