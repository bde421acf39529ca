# Snake game logic in Dafny

A model of the game logic of a grid-based Snake game (`src/Snake.cpp`). The
head moves one 28-unit cell per simulation step on an 812 by 616 playfield
(29 columns by 22 rows). A fixed-step accumulator runs one step per quarter
second of elapsed time. Arrow keys or WASD steer the head, and a move that
would reverse the last committed direction is refused. The body segments
follow the head as a chain. Reaching the food moves the food to a
pseudo-random cell and grows the body by one segment. Leaving the playfield
or touching the body closes the window.

The model has four modules:

- `Geometry` (`geometry.dfy`): sprites, their axis-aligned bounding boxes,
  the inclusive collision test and the playfield grid.
- `Input` (`input.dfy`): the 1024-entry key table kept by the key callback,
  and the direction mapper with its reversal ban.
- `Simulation` (`simulation.dfy`): the game logic as pure functions.
  - One step: move, commit the direction, shift the chain, eat and grow.
  - Runs of steps and the accumulator's step count.
  - The frame start (steering and the head-position snapshot) and the
    end-of-frame checks.
  - Lemmas about these: the chain shift, the straight-line run, the
    once-per-frame snapshot, the reversal ban, grid alignment, and the
    collision test on the grid.
- `Loop` (`game.dfy`): class `Game`, the state the main loop updates in
  place. It holds the head, the body, the food, the key table (an array),
  the accumulator and the window's close flag. Each method is a procedure
  or loop of the source, proved to compute the matching function of
  `Simulation` or `Input`.

Coordinates are exact reals. The z component of the source's vectors is never
read by the game logic and is dropped. The result of each `rand()` is a
parameter (`Draw`), and so is the elapsed time of a frame.

## Model

| member | source | states |
|---|---|---|
| Geometry.PMax | src/Snake.cpp:40-44 | getPMax: the box's upper-right corner, the position plus half the dimensions on each axis |
| Geometry.PMin | src/Snake.cpp:45-49 | getPMin: the box's lower-left corner, the position minus half the dimensions on each axis |
| Geometry.Collides | src/Snake.cpp:299-311 | checkCollision: the boxes meet on x and on y, with touching edges counting as a collision |
| Geometry.BoxIsCentredOnPos | src/Snake.cpp:40-49 | the box from getPMin to getPMax is centred on the sprite's position and has its dimensions as its extent |
| Geometry.CollidesIffCentresClose | src/Snake.cpp:299-311 | checkCollision holds iff, on each axis, the centres are at most half the summed extents apart |
| Geometry.CollidesSymmetric | src/Snake.cpp:299-311 | the collision test does not depend on the order of its arguments |
| Geometry.SamePosCollides | src/Snake.cpp:299-311 | two sprites on the same point with non-negative sizes collide |
| Geometry.TouchingEdgesCollide | src/Snake.cpp:299-311 | the test is inclusive: boxes whose edges just touch on x (with overlap on y) or on y (with overlap on x) collide |
| Geometry.SeparatedNeverCollide | src/Snake.cpp:299-311 | centres further apart than the half-extents on some axis never collide |
| Geometry.CentreIndex | src/Snake.cpp:313-323 | the centre 14 + 28k of cell k is a grid centre whose index is k |
| Geometry.CentreShift | src/Snake.cpp:234-247 | a grid coordinate moved by whole cells stays on the grid, and its index moves by the same count |
| Geometry.GridCoordsClose | src/Snake.cpp:299-311 | two grid coordinates at most 27 apart are equal |
| Geometry.GridCollision | src/Snake.cpp:299-311 | for grid-aligned 27 by 27 sprites, checkCollision holds iff both sprites are in the same cell |
| Geometry.InsideIffOnBoard | src/Snake.cpp:274 | a grid point passes the bounds check iff its cell is one of the 29 x 22 cells |
| Input.RequestsClose | src/Snake.cpp:338-339 | a press of Escape asks the window to close |
| Input.Record | src/Snake.cpp:336-349 | press sets the key, release clears it, any other action changes nothing, and no other key changes |
| Input.PressThenRelease | src/Snake.cpp:342-349 | a press then a release of one key leaves it free and every other key as it was |
| Input.Steer | src/Snake.cpp:198-221 | the four guarded overwrites: the result is the old direction or an accepted request (held and not a reversal), and no new reversal appears |
| Input.SteerPicksLastAccepted | src/Snake.cpp:198-221 | the result is the accepted request that comes last in the order left, right, up, down; with none accepted the direction is kept |
| Input.SteerByKeys | src/Snake.cpp:198-221 | the direction mapper reading the table: arrow key or letter key (Left/A, Right/D, Up/W, Down/S) held, fed to Steer |
| Input.NoReversalFromRight | src/Snake.cpp:198-221 | after a step to the right, left is ignored while up and down take effect |
| Input.AllHeld | src/Snake.cpp:198-221 | with all keys held, down wins unless the last step went up, in which case up wins |
| Simulation.TickIsThreeFrames | src/Snake.cpp:231 | the step interval 3 / FPS, with FPS = 12, is a quarter second |
| Simulation.InitialHead | src/Snake.cpp:139-146 | the start-up head: position (406, 322), 27 by 27, speed 28, moving right |
| Simulation.InitialFood | src/Snake.cpp:148-153 | the start-up food: position (574, 322), 27 by 27, speed 1.5 |
| Simulation.AdvanceAdditive | src/Snake.cpp:234-247 | two moves along one direction add up |
| Simulation.Moved | src/Snake.cpp:234-247 | the head moves by vel (left -x, right +x, up +y, down -y), and nothing else changes |
| Simulation.MoveIsAxisAligned | src/Snake.cpp:234-247 | a move changes exactly one coordinate, by \|vel\| |
| Simulation.Relocated | src/Snake.cpp:313-323 | the food goes to the centre of cell (first % 29, second % 22), inside [14, 798] x [14, 602]; only its position changes |
| Simulation.EveryCellReachable | src/Snake.cpp:313-323 | every board cell is the result of some draw, whether or not the snake occupies it |
| Simulation.NewSegment | src/Snake.cpp:325-334 | generateBody's new segment: at the given position, 27 by 27 |
| Simulation.ShiftChain | src/Snake.cpp:251-261 | segment i keeps its old position as prevpos and takes the old position of segment i-1 (the head's snapshot for i = 0); nothing else changes |
| Simulation.ShiftIsPureShift | src/Snake.cpp:251-261 | the positions move one slot towards the tail with the lead entering slot 0, and the previous positions are the old positions |
| Simulation.ShiftThree | src/Snake.cpp:251-261 | [P1, P2, P3] behind a head that was at P0 become [P0, P1, P2] |
| Simulation.Advanced | src/Snake.cpp:234-261 | the first part of a step: the head moves and commits its direction, and the body shifts behind the head's snapshot |
| Simulation.Fed | src/Snake.cpp:263-271 | the food check: a head colliding with the food relocates it and appends a segment at the shifted tail's prevpos (or the head's snapshot, with no body); otherwise nothing changes |
| Simulation.Step | src/Snake.cpp:232-271 | the head moves and commits its direction; the body shifts; the body grows by one exactly when the moved head collides with the food; the new tail is placed where the old tail was (or where the head was, if there is no body); the food is relocated only then |
| Simulation.FirstGrowth | src/Snake.cpp:263-270 | eating with no body puts the first segment at the head's snapshot position |
| Simulation.RunSteps | src/Snake.cpp:232-271 | a run of steps never shrinks the body, grows it at most once per step, and keeps the head's snapshot |
| Simulation.RunStepsExtend | src/Snake.cpp:232-271 | one more pass of the loop extends the run by one step |
| Simulation.RunStepsHead | src/Snake.cpp:232-248 | over n steps the head keeps its direction and speed, travels n moves along that direction, and has committed that direction once n > 0 |
| Simulation.StraightRight | src/Snake.cpp:238-240 | moving right for n steps adds n moves of vel to x and leaves y unchanged |
| Simulation.StraightRightCells | src/Snake.cpp:238-240 | at the head's speed of 28, one cell, n steps right move the head n cells |
| Simulation.SegmentZeroGetsSnapshot | src/Snake.cpp:225-256 | after any non-empty run within one frame, segment 0 is on the frame-start head position |
| Simulation.TwoStepsOneFrame | src/Snake.cpp:225-261 | in a two-step frame the head goes two moves on while segment 0 stays at the frame-start position |
| Simulation.StepCount | src/Snake.cpp:228-249 | the loop runs n steps, with n intervals fitting in the accumulator and n + 1 not fitting |
| Simulation.Leftover | src/Snake.cpp:232-249 | the loop leaves less than one interval in the accumulator |
| Simulation.StepCountUnique | src/Snake.cpp:232-249 | a count that leaves between zero and one interval behind is the step count |
| Simulation.StepCountAbove | src/Snake.cpp:232 | while a whole interval is left after n steps, the loop runs more than n steps |
| Simulation.TicksAreIntervals | src/Snake.cpp:231-249 | the time of n steps is n intervals of 3 / FPS, and each step adds one interval |
| Simulation.StepCountExample | src/Snake.cpp:228-249 | 0.625 seconds run two steps and leave 0.125 |
| Simulation.FrameStart | src/Snake.cpp:198-225 | the frame start: the direction mapper sets the head's direction, then the head's position is snapshotted into prevpos |
| Simulation.OutOfBounds | src/Snake.cpp:274 | a point outside the closed playfield [0, 812] x [0, 616] |
| Simulation.HitsOwnBody | src/Snake.cpp:279-284 | the head collides with some body segment |
| Simulation.FrameEnds | src/Snake.cpp:273-284 | the end-of-frame checks: the head is out of bounds or on its own body |
| Simulation.FrameKeepsNoReversal | src/Snake.cpp:198-248 | a frame never leaves the head facing the reverse of its committed direction (given no reversal before, or at least one step) |
| Simulation.InitialSceneOnGrid | src/Snake.cpp:139-152 | the start-up head and food are 27 by 27 sprites on cell centres, and the head moves at one cell per step |
| Simulation.MovedOnGrid | src/Snake.cpp:234-247 | a move of one cell keeps a grid sprite on the grid |
| Simulation.StepKeepsGrid | src/Snake.cpp:232-271 | a step keeps every sprite grid-aligned |
| Simulation.RunStepsKeepGrid | src/Snake.cpp:232-271 | any run of steps keeps the scene grid-aligned |
| Simulation.FrameKeepsGrid | src/Snake.cpp:196-271 | every frame keeps the scene grid-aligned |
| Simulation.EatsIffSameCell | src/Snake.cpp:263 | on the grid, the head eats exactly when its move lands on the food's cell |
| Simulation.FrameEndsOnGrid | src/Snake.cpp:273-284 | on the grid, the window closes iff the head is off the 29 x 22 board or shares a cell with a body segment |
| Simulation.OneStepFrameAvoidsNeck | src/Snake.cpp:198-261 | with the reversal ban, in a one-step frame the head lands on neither its old neck nor the cell it left, and the neck is again one cell behind |
| Loop.Game.constructor | src/Snake.cpp:139-152 | at start-up no key is held, the head and food are at their start cells, the body is empty and the accumulator is zero |
| Loop.Game.KeyCallback | src/Snake.cpp:336-349 | the key table becomes Record of the old table, and the close flag is set by an Escape press |
| Loop.Game.SteerFromKeys | src/Snake.cpp:198-221 | the head's direction becomes the direction mapper applied to the key table |
| Loop.Game.MoveHead | src/Snake.cpp:234-247 | the head becomes the moved head |
| Loop.Game.ShiftBody | src/Snake.cpp:251-261 | the in-place loop computes the chain shift behind the head's snapshot |
| Loop.Game.GenerateFruit | src/Snake.cpp:313-323 | the food becomes the relocated food for the draw |
| Loop.Game.GenerateBody | src/Snake.cpp:325-334 | one new 27 by 27 segment is appended at the given position |
| Loop.Game.MoveAndShift | src/Snake.cpp:234-261 | the move, the direction commit and the shift give the first part of a step |
| Loop.Game.EatFood | src/Snake.cpp:263-271 | the food check and growth give the second part of a step |
| Loop.Game.TakeStep | src/Snake.cpp:232-271 | one pass of the fixed-step loop computes Step |
| Loop.Game.HitsBody | src/Snake.cpp:279-284 | the scan finds a hit iff the head collides with some body segment |
| Loop.Game.RunFixedSteps | src/Snake.cpp:232-271 | the loop runs StepCount steps, using draw k for step k, and leaves Leftover in the accumulator |
| Loop.Game.CheckGameOver | src/Snake.cpp:273-284 | the close flag is set iff it was already set or the head is out of bounds or on its body |
| Loop.Game.BeginFrame | src/Snake.cpp:198-230 | steering, the head snapshot and the accumulation give the frame start |
| Loop.Game.Frame | src/Snake.cpp:196-284 | one frame: the world is RunSteps from the frame start over StepCount(accumulator + dt) draws; the accumulator keeps the leftover below one interval; the close flag follows the end-of-frame checks |

## Left out

- Rendering, textures, shaders and window creation: these are GL/GLFW/stb calls with no game logic. The program never updates the window title: `title_countdown_s` and `colorValue` (Snake.cpp:158-160) are declared and never used.
- glfwPollEvents and the outer `while (!glfwWindowShouldClose)` loop: key events and frames are separate methods (`KeyCallback`, `Frame`), and the caller interleaves them. `Frame` does not require the close flag to be clear, so the model also allows frames after the window was asked to close, which the source's loop condition stops before the next frame.
- glfwGetTime: each frame receives its elapsed time `dt` as a parameter, with `dt >= 0` because the clock is monotonic.
- rand() and srand(time): each step of a frame is given one `Draw` (two raw rand() results). A step that does not eat ignores its draw, whereas the program calls rand() only on a food hit. So the draws are not the program's successive rand() results. Rather, every sequence of food cells the program produces comes from some choice of draws: the pair for meal k is placed at the step on which meal k happens.
- Loop.Game.KeyCallback: requires `0 <= key < 1024`. The source indexes `keys[key]` unchecked, and a key code outside the table (GLFW's unknown key, -1) is undefined behaviour there.
- Floating point: coordinates, speeds and the accumulator are exact reals. The program's single-precision positions and double-precision accumulator rounding are not modelled. All the grid values are small integers and the interval is 0.25, so these are exact in binary floating point.
- The head's `prevmoving` is never initialised by the program. It is a parameter of `Loop.Game.constructor`. The head's `prevpos` is also unset until the first frame overwrites it (Snake.cpp:225); `InitialHead` sets it to the start position. Fields a new segment or food never sets and never reads (direction, speed, angle, previous position) get fixed values.
- The z component of positions and sizes, the sprite angle and the background sprite are not read by the game logic. The window size constants `WIDTH` and `HEIGHT` (816 by 600, Snake.cpp:62) size the window at Snake.cpp:102 only; the game logic uses the 812 by 616 playfield.
- The food spawner does not avoid the snake: a new food cell may lie on the body, as `EveryCellReachable` states.
