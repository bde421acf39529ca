/** The key-state table kept by the key callback and the mapping from held
    keys to the head's movement direction, with its reversal ban. */
module Input {
  import opened Geometry

  /** Size of the key-state table. */
  const KeyCount: nat := 1024

  // GLFW key codes used by the game.
  const KeyA: nat := 65
  const KeyD: nat := 68
  const KeyS: nat := 83
  const KeyW: nat := 87
  const KeyEscape: nat := 256
  const KeyRight: nat := 262
  const KeyLeft: nat := 263
  const KeyDown: nat := 264
  const KeyUp: nat := 265

  // GLFW key actions.
  const Release: int := 0
  const Press: int := 1

  /** The key table after one key event: a press marks the key held, a
      release marks it free, any other action (a repeat) leaves the table as
      it was. */
  function Record(keys: seq<bool>, key: int, action: int): (r: seq<bool>)
    requires 0 <= key < |keys|
    ensures |r| == |keys|
    ensures action == Press ==> r[key]
    ensures action == Release ==> !r[key]
    ensures action != Press && action != Release ==> r == keys
    ensures forall k :: 0 <= k < |keys| && k != key ==> r[k] == keys[k]
  {
    if action == Press then keys[key := true]
    else if action == Release then keys[key := false]
    else keys
  }

  /** A press of Escape asks the window to close. */
  predicate RequestsClose(key: int, action: int) {
    key == KeyEscape && action == Press
  }

  /** A press followed by a release of the same key leaves it free and every
      other key as it was before the press. */
  lemma PressThenRelease(keys: seq<bool>, key: int)
    requires 0 <= key < |keys|
    ensures Record(Record(keys, key, Press), key, Release) == keys[key := false]
  {
  }

  /** A direction is held when either of its two keys is down. */
  function Held(keys: seq<bool>, arrow: nat, letter: nat): bool
    requires arrow < |keys| && letter < |keys|
  {
    keys[arrow] || keys[letter]
  }

  /** Position of a direction in the fixed order the keys are examined in. */
  function Rank(d: Direction): nat {
    match d
    case Left => 0
    case Right => 1
    case Up => 2
    case Down => 3
  }

  function Requested(d: Direction, left: bool, right: bool, up: bool, down: bool): bool {
    match d
    case Left => left
    case Right => right
    case Up => up
    case Down => down
  }

  /** A requested direction is accepted unless it reverses the direction
      committed by the last step. */
  predicate Accepted(d: Direction, prevmoving: Direction, left: bool, right: bool, up: bool, down: bool) {
    Requested(d, left, right, up, down) && d != Opposite(prevmoving)
  }

  /** The four checks in order left, right, up, down, each overwriting the
      direction when its key is held and it does not reverse `prevmoving`.
      The result is the old direction or an accepted one, and it never newly
      reverses `prevmoving`; SteerPicksLastAccepted says which one. */
  function Steer(moving: Direction, prevmoving: Direction, left: bool, right: bool, up: bool, down: bool): (r: Direction)
    ensures r == moving || Accepted(r, prevmoving, left, right, up, down)
    ensures r != moving ==> r != Opposite(prevmoving)
    ensures moving != Opposite(prevmoving) ==> r != Opposite(prevmoving)
  {
    var afterLeft := if left && prevmoving != Right then Left else moving;
    var afterRight := if right && prevmoving != Left then Right else afterLeft;
    var afterUp := if up && prevmoving != Down then Up else afterRight;
    if down && prevmoving != Up then Down else afterUp
  }

  /** The result of the four checks is the accepted direction latest in the
      order left, right, up, down, or the old direction when none is
      accepted. */
  lemma SteerPicksLastAccepted(moving: Direction, prevmoving: Direction, left: bool, right: bool, up: bool, down: bool)
    ensures var r := Steer(moving, prevmoving, left, right, up, down);
      (exists d :: Accepted(d, prevmoving, left, right, up, down)) ==>
        Accepted(r, prevmoving, left, right, up, down) &&
        forall d :: Accepted(d, prevmoving, left, right, up, down) ==> Rank(d) <= Rank(r)
    ensures (forall d :: !Accepted(d, prevmoving, left, right, up, down)) ==>
      Steer(moving, prevmoving, left, right, up, down) == moving
  {
  }

  /** The direction mapper reading the key table: arrows or WASD. */
  function SteerByKeys(moving: Direction, prevmoving: Direction, keys: seq<bool>): Direction
    requires |keys| == KeyCount
  {
    Steer(moving, prevmoving,
      Held(keys, KeyLeft, KeyA), Held(keys, KeyRight, KeyD),
      Held(keys, KeyUp, KeyW), Held(keys, KeyDown, KeyS))
  }

  /** After a step to the right, a left request is ignored while up and down
      requests take effect. */
  lemma NoReversalFromRight(moving: Direction)
    ensures Steer(moving, Right, true, false, false, false) == moving
    ensures Steer(moving, Right, false, false, true, false) == Up
    ensures Steer(moving, Right, false, false, false, true) == Down
    ensures Steer(moving, Right, true, false, true, false) == Up
  {
  }

  /** With all four directions held, down wins unless it is banned (the last
      step went up), in which case up, the next latest, wins. */
  lemma AllHeld(moving: Direction, prevmoving: Direction)
    ensures Steer(moving, prevmoving, true, true, true, true) ==
      if prevmoving != Up then Down else Up
  {
  }
}
