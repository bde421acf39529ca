/** The running game as the main loop keeps it: the key table written by the
    key callback, the head, body, food and accumulator that one frame of the
    loop updates in place, and the window's close flag. Each method is proved
    to compute the matching function of module Simulation or Input. */
module Loop {
  import opened Geometry
  import opened Input
  import opened Simulation

  class Game {
    var head: Sprite
    var body: seq<Sprite>
    var food: Sprite
    /** Held state of every key, indexed by key code. */
    const keys: array<bool>
    /** Elapsed time not yet consumed by simulation steps, in seconds. */
    var accumulator: real
    /** The window has been asked to close. */
    var close: bool

    /** Between frames the accumulator holds less than one interval. */
    ghost predicate Valid()
      reads this
    {
      keys.Length == KeyCount && 0.0 <= accumulator < Tick
    }

    /** The simulated world held by the game. */
    function Current(): Scene
      reads this
    {
      Scene(head, body, food)
    }

    /** Start-up: no key held, head and food at their start cells, no body. */
    constructor (prevmoving: Direction)
      ensures Valid() && fresh(keys)
      ensures Current() == InitialScene(prevmoving)
      ensures forall k :: 0 <= k < keys.Length ==> !keys[k]
      ensures accumulator == 0.0 && !close
    {
      head := InitialHead(prevmoving);
      body := [];
      food := InitialFood;
      accumulator := 0.0;
      close := false;
      keys := new bool[KeyCount];
      new;
      for i := 0 to KeyCount
        invariant forall k :: 0 <= k < i ==> !keys[k]
        modifies keys
      {
        keys[i] := false;
      }
    }

    /** A key event: press and release update the key's entry; Escape
        pressed asks the window to close. */
    method KeyCallback(key: int, action: int)
      requires Valid() && 0 <= key < KeyCount
      modifies keys, this`close
      ensures Valid()
      ensures keys[..] == Record(old(keys[..]), key, action)
      ensures close == (old(close) || RequestsClose(key, action))
    {
      if key == KeyEscape && action == Press {
        close := true;
      }
      if action == Press {
        keys[key] := true;
      } else if action == Release {
        keys[key] := false;
      }
    }

    /** The direction mapper: four checks in the order left, right, up, down. */
    method SteerFromKeys()
      requires Valid()
      modifies this`head
      ensures head == old(head).(moving := SteerByKeys(old(head.moving), old(head.prevmoving), old(keys[..])))
    {
      if keys[KeyLeft] || keys[KeyA] {
        if head.prevmoving != Right {
          head := head.(moving := Left);
        }
      }
      if keys[KeyRight] || keys[KeyD] {
        if head.prevmoving != Left {
          head := head.(moving := Right);
        }
      }
      if keys[KeyUp] || keys[KeyW] {
        if head.prevmoving != Down {
          head := head.(moving := Up);
        }
      }
      if keys[KeyDown] || keys[KeyS] {
        if head.prevmoving != Up {
          head := head.(moving := Down);
        }
      }
    }

    /** The head moves by its speed along its direction. */
    method MoveHead()
      modifies this`head
      ensures head == Moved(old(head))
    {
      match head.moving
      case Left => head := head.(pos := head.pos.(x := head.pos.x - head.vel));
      case Right => head := head.(pos := head.pos.(x := head.pos.x + head.vel));
      case Up => head := head.(pos := head.pos.(y := head.pos.y + head.vel));
      case Down => head := head.(pos := head.pos.(y := head.pos.y - head.vel));
    }

    /** The chain shift, head to tail: each segment saves its position, then
        takes the saved position of the link ahead of it. */
    method ShiftBody()
      modifies this`body
      ensures body == ShiftChain(head.prevpos, old(body))
    {
      ghost var shifted := ShiftChain(head.prevpos, body);
      for i := 0 to |body|
        invariant |body| == |old(body)|
        invariant forall k :: 0 <= k < i ==> body[k] == shifted[k]
        invariant forall k :: i <= k < |body| ==> body[k] == old(body)[k]
      {
        body := body[i := body[i].(prevpos := body[i].pos)];
        if i == 0 {
          body := body[i := body[i].(pos := head.prevpos)];
        } else {
          body := body[i := body[i].(pos := body[i - 1].prevpos)];
        }
      }
    }

    /** The food jumps to the cell picked by two rand() results. */
    method GenerateFruit(d: Draw)
      modifies this`food
      ensures food == Relocated(old(food), d)
    {
      var cols, rows := Cols, Rows;
      var col := d.first % cols;
      var row := d.second % rows;
      food := food.(pos := Vec2(14.0 + (col * 28) as real, 14.0 + (row * 28) as real));
    }

    /** A new segment is appended at the given position. */
    method GenerateBody(prevPos: Vec2)
      modifies this`body
      ensures body == old(body) + [NewSegment(prevPos)]
    {
      body := body + [NewSegment(prevPos)];
    }

    /** Move the head, commit its direction and shift the body. */
    method MoveAndShift()
      modifies this`head, this`body
      ensures Current() == Advanced(old(Current()))
    {
      MoveHead();
      head := head.(prevmoving := head.moving);
      ShiftBody();
    }

    /** The food check: on the food, relocate it and grow at the tail. */
    method EatFood(d: Draw)
      modifies this`body, this`food
      ensures Current() == Fed(old(Current()), d)
    {
      if Collides(head, food) {
        GenerateFruit(d);
        if |body| > 0 {
          GenerateBody(body[|body| - 1].prevpos);
        } else {
          GenerateBody(head.prevpos);
        }
      }
    }

    /** One pass of the fixed-step loop's body (apart from the accumulator):
        move, commit the direction, shift, and eat if the head is on the food. */
    method TakeStep(d: Draw)
      modifies this`head, this`body, this`food
      ensures Current() == Step(old(Current()), d)
    {
      MoveAndShift();
      EatFood(d);
    }

    /** The self-collision scan: whether the head touches any body segment. */
    method HitsBody() returns (hit: bool)
      ensures hit == HitsOwnBody(Current())
    {
      hit := false;
      for i := 0 to |body|
        invariant hit <==> exists k :: 0 <= k < i && Collides(head, body[k])
      {
        if Collides(head, body[i]) {
          hit := true;
        }
      }
    }

    /** The fixed-step loop: while the accumulator holds a whole interval,
        take a step (step k using draw k) and consume the interval. */
    method RunFixedSteps(draws: seq<Draw>)
      requires accumulator >= 0.0 && |draws| >= StepCount(accumulator)
      modifies this`head, this`body, this`food, this`accumulator
      ensures Current() == RunSteps(old(Current()), draws[..StepCount(old(accumulator))])
      ensures accumulator == Leftover(old(accumulator))
    {
      ghost var total := accumulator;
      ghost var start := Current();
      ghost var count := StepCount(total);
      var n := 0;
      while accumulator >= Tick
        invariant 0 <= n <= count
        invariant 0.0 <= accumulator == total - Ticks(n)
        invariant Current() == RunSteps(start, draws[..n])
        decreases count - n
      {
        StepCountAbove(total, n);
        RunStepsExtend(start, draws, n);
        TakeStep(draws[n]);
        accumulator := accumulator - Tick;
        n := n + 1;
      }
      StepCountUnique(total, n);
    }

    /** The end-of-frame checks: out of the playfield, or on its own body,
        the head ends the game by asking the window to close. */
    method CheckGameOver()
      modifies this`close
      ensures close == (old(close) || FrameEnds(Current()))
    {
      if head.pos.x < 0.0 || head.pos.x > Width || head.pos.y < 0.0 || head.pos.y > Height {
        close := true;
      }
      var hit := HitsBody();
      if hit {
        close := true;
      }
    }

    /** The start of a frame: the direction mapper runs, the head's position
        is snapshotted, and the elapsed time is added to the accumulator. */
    method BeginFrame(dt: real)
      requires Valid()
      modifies this`head, this`accumulator
      ensures Current() == FrameStart(old(Current()), old(keys[..]))
      ensures accumulator == old(accumulator) + dt
    {
      SteerFromKeys();
      head := head.(prevpos := head.pos);
      accumulator := accumulator + dt;
    }

    /** One frame of the game loop after input polling, given the time
        elapsed since the last frame and one pair of rand() results per step
        the frame may run: steer, snapshot the head's position, run one step
        per whole interval in the accumulator, then close the window if the
        head is out of the playfield or on its own body. */
    method Frame(dt: real, draws: seq<Draw>)
      requires Valid() && dt >= 0.0
      requires |draws| >= StepCount(accumulator + dt)
      modifies this`head, this`body, this`food, this`accumulator, this`close
      ensures Valid()
      ensures Current() ==
        RunSteps(FrameStart(old(Current()), old(keys[..])), draws[..StepCount(old(accumulator) + dt)])
      ensures accumulator == Leftover(old(accumulator) + dt)
      ensures close == (old(close) || FrameEnds(Current()))
    {
      BeginFrame(dt);
      RunFixedSteps(draws);
      CheckGameOver();
    }
  }
}
