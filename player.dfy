/** The player's per-frame update: the arrow keys turn the player, and W, A,
    S, D move it relative to the way it faces. The frame time `dt`, the
    pressed keys, the unit vector of an angle (`fromAngle`) and vector
    normalisation (`normalize`) come in as parameters. */
module PlayerControl {
  import opened Numerics

  const PlayerSpeed: real := 3.0
  const PlayerTurningSpeed: real := Pi

  /** The keys the update reads, each pressed or not. */
  datatype Keys = Keys(arrowLeft: bool, arrowRight: bool, w: bool, a: bool, s: bool, d: bool)

  /** The player's placement in the world, updated in place every frame. */
  class Transform {
    var position: Vec2
    var rotation: real

    constructor (position: Vec2, rotation: real)
      ensures this.position == position && this.rotation == rotation
    {
      this.position := position;
      this.rotation := rotation;
    }
  }

  /** The change of heading the arrow keys ask for: left turns
      counter-clockwise, right clockwise, both together not at all. */
  function TurnDelta(keys: Keys, dt: real): (delta: real)
    ensures keys.arrowLeft == keys.arrowRight ==> delta == 0.0
    ensures keys.arrowLeft && !keys.arrowRight ==> delta == PlayerTurningSpeed * dt
    ensures !keys.arrowLeft && keys.arrowRight ==> delta == -(PlayerTurningSpeed * dt)
  {
    (if keys.arrowLeft then PlayerTurningSpeed * dt else 0.0) - (if keys.arrowRight then PlayerTurningSpeed * dt else 0.0)
  }

  /** The heading after a frame: turned by the arrow keys, then reduced with
      the float remainder by `Tau`. The remainder keeps the sign of the
      dividend, so the heading stays in (-Tau, Tau) rather than [0, Tau); it
      differs from the turned heading by a whole number of turns, so it names
      the same direction; and a turned heading already in that range is kept
      as it is. */
  function NextRotation(rotation: real, keys: Keys, dt: real): (r: real)
    ensures -Tau < r < Tau
    ensures -Tau < rotation + TurnDelta(keys, dt) < Tau ==> r == rotation + TurnDelta(keys, dt)
    ensures rotation + TurnDelta(keys, dt) < 0.0 ==> r <= 0.0
    ensures rotation + TurnDelta(keys, dt) > 0.0 ==> r >= 0.0
    ensures IsWholeMultiple(rotation + TurnDelta(keys, dt) - r, Tau)
  {
    RustRem(rotation + TurnDelta(keys, dt), Tau)
  }

  /** The movement keys as a direction relative to the player: the sum of
      the unit vectors of the pressed keys, W forward (+x), A to the left
      (+y), S backward, D to the right. Each component is -1, 0 or 1, and the
      direction is zero exactly when W and S, and A and D, cancel each other. */
  function LocalDirection(keys: Keys): (v: Vec2)
    ensures (v.x == -1.0 || v.x == 0.0 || v.x == 1.0) && (v.y == -1.0 || v.y == 0.0 || v.y == 1.0)
    ensures v.x > 0.0 <==> keys.w && !keys.s
    ensures v.x < 0.0 <==> keys.s && !keys.w
    ensures v.y > 0.0 <==> keys.a && !keys.d
    ensures v.y < 0.0 <==> keys.d && !keys.a
    ensures v == Zero <==> keys.w == keys.s && keys.a == keys.d
  {
    Vec2((if keys.w then 1.0 else 0.0) - (if keys.s then 1.0 else 0.0),
         (if keys.a then 1.0 else 0.0) - (if keys.d then 1.0 else 0.0))
  }

  /** The player moves exactly when the movement keys do not cancel out. */
  predicate Moves(keys: Keys)
  {
    LengthSq(LocalDirection(keys)) > 0.0
  }

  /** One frame's displacement when the player moves: the normalised local
      direction turned by the heading, scaled by the speed and the frame time. */
  function Stride(keys: Keys, dt: real, rotation: real, fromAngle: real -> Vec2, normalize: Vec2 -> Vec2): Vec2
  {
    Scale(Scale(Rotate(normalize(LocalDirection(keys)), fromAngle(rotation)), PlayerSpeed), dt)
  }

  /** The position after a frame, moved along the heading `rotation` the frame has already turned to. */
  function NextPosition(position: Vec2, rotation: real, keys: Keys, dt: real,
                        fromAngle: real -> Vec2, normalize: Vec2 -> Vec2): Vec2
  {
    if Moves(keys) then Add(position, Stride(keys, dt, rotation, fromAngle, normalize)) else position
  }

  /** The per-frame update: the turning half, then the movement half along the new heading. */
  method UpdatePlayer(transform: Transform, keys: Keys, dt: real, fromAngle: real -> Vec2, normalize: Vec2 -> Vec2)
    modifies transform
    ensures transform.rotation == NextRotation(old(transform.rotation), keys, dt)
    ensures transform.position ==
      NextPosition(old(transform.position), transform.rotation, keys, dt, fromAngle, normalize)
  {
    Turn(transform, keys, dt);
    Move(transform, keys, dt, fromAngle, normalize);
  }

  /** The turning half of the update: each arrow key held adds its turn, and
      the heading is then reduced by `Tau`. */
  method Turn(transform: Transform, keys: Keys, dt: real)
    modifies transform
    ensures transform.rotation == NextRotation(old(transform.rotation), keys, dt)
    ensures transform.position == old(transform.position)
  {
    if keys.arrowLeft {
      transform.rotation := transform.rotation + PlayerTurningSpeed * dt;
    }
    if keys.arrowRight {
      transform.rotation := transform.rotation - PlayerTurningSpeed * dt;
    }
    assert transform.rotation == old(transform.rotation) + TurnDelta(keys, dt);
    transform.rotation := RustRem(transform.rotation, Tau);
  }

  /** The movement half of the update: when the movement keys add up to a
      non-zero direction, the player moves along it, normalised and turned by
      the current heading. */
  method Move(transform: Transform, keys: Keys, dt: real, fromAngle: real -> Vec2, normalize: Vec2 -> Vec2)
    modifies transform
    ensures transform.rotation == old(transform.rotation)
    ensures transform.position ==
      NextPosition(old(transform.position), transform.rotation, keys, dt, fromAngle, normalize)
  {
    var direction := MovementDirection(keys);
    if LengthSq(direction) > 0.0 {
      direction := normalize(direction);
      var playerDirection := fromAngle(transform.rotation);
      transform.position := Add(transform.position, Scale(Scale(Rotate(direction, playerDirection), PlayerSpeed), dt));
    }
  }

  /** The movement part of the update: starting from zero, each pressed key
      adds its unit vector, in the order W, A, S, D. */
  method MovementDirection(keys: Keys) returns (direction: Vec2)
    ensures direction == LocalDirection(keys)
  {
    direction := Zero;
    if keys.w {
      direction := Vec2(direction.x + 1.0, direction.y);
    }
    if keys.a {
      direction := Vec2(direction.x, direction.y + 1.0);
    }
    if keys.s {
      direction := Vec2(direction.x - 1.0, direction.y);
    }
    if keys.d {
      direction := Vec2(direction.x, direction.y - 1.0);
    }
  }

  /** The player moves exactly when W and S, or A and D, do not cancel. */
  lemma MovesIffKeysDoNotCancel(keys: Keys)
    ensures Moves(keys) <==> !(keys.w == keys.s && keys.a == keys.d)
  {
    var v := LocalDirection(keys);
    if v != Zero {
      if v.x != 0.0 {
        assert v.x * v.x == 1.0;
      } else {
        assert v.y * v.y == 1.0;
      }
    }
  }

  /** With no movement keys, or with opposite keys cancelling, a frame leaves
      the position unchanged, whatever the heading and frame time. */
  lemma CancellingKeysKeepPosition(position: Vec2, rotation: real, keys: Keys, dt: real,
                                   fromAngle: real -> Vec2, normalize: Vec2 -> Vec2)
    requires keys.w == keys.s && keys.a == keys.d
    ensures NextPosition(position, rotation, keys, dt, fromAngle, normalize) == position
  {
    MovesIffKeysDoNotCancel(keys);
  }

  /** Holding both arrow keys turns nothing: the heading is only reduced by
      `Tau`, which keeps a heading already in (-Tau, Tau). */
  lemma OppositeTurnsCancel(rotation: real, keys: Keys, dt: real)
    requires keys.arrowLeft && keys.arrowRight
    requires -Tau < rotation < Tau
    ensures NextRotation(rotation, keys, dt) == rotation
  {
  }

  /** A heading reduced once stays put under frames without turning keys. */
  lemma IdleHeadingIsStable(rotation: real, keys: Keys, dt: real)
    requires keys.arrowLeft == keys.arrowRight
    ensures NextRotation(NextRotation(rotation, keys, dt), keys, dt) == NextRotation(rotation, keys, dt)
  {
  }

  lemma LengthSqOfScale(v: Vec2, k: real)
    ensures LengthSq(Scale(v, k)) == LengthSq(v) * (k * k)
  {
    calc {
      LengthSq(Scale(v, k));
      (v.x * k) * (v.x * k) + (v.y * k) * (v.y * k);
      (v.x * v.x + v.y * v.y) * (k * k);
    }
  }

  /** When normalisation yields a unit vector and the heading's vector is a
      unit vector, a moving frame covers exactly `PlayerSpeed * dt`: the
      squared length of its stride is `(PlayerSpeed * dt)^2`, whichever keys
      are held, diagonals included. */
  lemma StrideLength(keys: Keys, dt: real, rotation: real, fromAngle: real -> Vec2, normalize: Vec2 -> Vec2)
    requires LengthSq(normalize(LocalDirection(keys))) == 1.0
    requires LengthSq(fromAngle(rotation)) == 1.0
    ensures LengthSq(Stride(keys, dt, rotation, fromAngle, normalize)) == (PlayerSpeed * dt) * (PlayerSpeed * dt)
  {
    var turned := Rotate(normalize(LocalDirection(keys)), fromAngle(rotation));
    RotateScalesLength(normalize(LocalDirection(keys)), fromAngle(rotation));
    assert LengthSq(turned) == 1.0;
    LengthSqOfScale(turned, PlayerSpeed);
    LengthSqOfScale(Scale(turned, PlayerSpeed), dt);
    assert (PlayerSpeed * PlayerSpeed) * (dt * dt) == (PlayerSpeed * dt) * (PlayerSpeed * dt);
  }
}
