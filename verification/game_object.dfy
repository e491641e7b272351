/** A moving object of the 2D game (a fruit, a bomb or the sword): a sprite
    with a velocity, an angular velocity and a flag that marks it for
    deletion once it has left the window. */
module GameObjects {
  import opened Vector2D
  import opened Geometry

  /** The drag and gravity constants of the game's configuration. */
  datatype Physics = Physics(linearDrag: real, gravity: real, angularDrag: real)

  /** The template sprite an object is made from. */
  datatype Sprite = Sprite(width: real, height: real, rotation: real, scale: real)

  /** What one physics step reads and writes of an object. */
  datatype Body = Body(x: real, y: real, velocity: Vec, angularVelocity: real, rotation: real, offScreen: bool)

  /** Completely out of the window to the left, to the right or below; the
      top edge does not count. */
  predicate Outside(x: real, y: real, width: real, height: real)
  {
    x + width < 0.0 || x > WindowWidth as real + width || y + height < 0.0
  }

  /** One physics step of length dt: drag on the x velocity, gravity on the
      y velocity, then the position moves by the new velocity; the angular
      velocity is dragged before the rotation moves; leaving the window sets
      the off-screen flag. */
  function Step(b: Body, width: real, height: real, dt: real, ph: Physics): Body
  {
    var v := Accelerate(b.velocity, dt, ph);
    var x := b.x + v.x * dt;
    var y := b.y + v.y * dt;
    var w := b.angularVelocity * (1.0 - ph.angularDrag);
    Body(x, y, v, w, b.rotation + w * dt, b.offScreen || Outside(x, y, width, height))
  }

  /** The velocity after drag and gravity. */
  function Accelerate(v: Vec, dt: real, ph: Physics): Vec
  {
    Vec(v.x * (1.0 - ph.linearDrag), v.y - ph.gravity * dt)
  }

  /** n physics steps of the same length. */
  function Steps(b: Body, width: real, height: real, dt: real, ph: Physics, n: nat): Body
  {
    if n == 0 then b else Step(Steps(b, width, height, dt, ph, n - 1), width, height, dt, ph)
  }

  /** The position moves by the velocity after drag and gravity, not by the
      one before. */
  lemma StepUsesNewVelocity(b: Body, width: real, height: real, dt: real, ph: Physics)
    ensures var r := Step(b, width, height, dt, ph);
      && r.velocity == Vec(b.velocity.x * (1.0 - ph.linearDrag), b.velocity.y - ph.gravity * dt)
      && r.x == b.x + r.velocity.x * dt
      && r.y == b.y + r.velocity.y * dt
      && r.rotation == b.rotation + r.angularVelocity * dt
  {
  }

  /** After a step the object is off screen exactly when it already was or
      its new position is outside the window. */
  lemma StepOffScreenIff(b: Body, width: real, height: real, dt: real, ph: Physics)
    ensures var r := Step(b, width, height, dt, ph);
      r.offScreen <==> b.offScreen || Outside(r.x, r.y, width, height)
  {
  }

  /** Once set, the off-screen flag stays set for any number of steps. */
  lemma {:induction false} OffScreenSticky(b: Body, width: real, height: real, dt: real, ph: Physics, n: nat)
    requires b.offScreen
    ensures Steps(b, width, height, dt, ph, n).offScreen
  {
    if n > 0 {
      OffScreenSticky(b, width, height, dt, ph, n - 1);
    }
  }

  /** Leaving through the top never marks an object: with x inside the
      window and y + height at least 0, however large y is, the flag keeps
      its value. */
  lemma TopNeverExits(b: Body, width: real, height: real, dt: real, ph: Physics)
    requires var r := Step(b, width, height, dt, ph);
      && r.x + width >= 0.0 && r.x <= WindowWidth as real + width && r.y + height >= 0.0
    ensures Step(b, width, height, dt, ph).offScreen == b.offScreen
  {
  }

  /** The velocity after n steps, drag and gravity applied n times. */
  function Fall(v: Vec, dt: real, ph: Physics, n: nat): Vec
  {
    if n == 0 then v else Accelerate(Fall(v, dt, ph, n - 1), dt, ph)
  }

  /** The velocity after n steps depends on the starting velocity alone. */
  lemma {:induction false} StepsFall(b: Body, width: real, height: real, dt: real, ph: Physics, n: nat)
    ensures Steps(b, width, height, dt, ph, n).velocity == Fall(b.velocity, dt, ph, n)
  {
    if n > 0 {
      StepsFall(b, width, height, dt, ph, n - 1);
    }
  }

  lemma {:induction false} FallWithoutDrag(v: Vec, dt: real, ph: Physics, n: nat)
    requires ph.linearDrag == 0.0
    ensures Fall(v, dt, ph, n) == Vec(v.x, v.y - (n as real) * (ph.gravity * dt))
  {
    if n > 0 {
      FallWithoutDrag(v, dt, ph, n - 1);
      var g, k := ph.gravity * dt, (n - 1) as real;
      var u := Fall(v, dt, ph, n - 1);
      assert u.x * (1.0 - ph.linearDrag) == v.x;
      assert u.y - g == v.y - (n as real) * g by {
        assert n as real == k + 1.0;
        assert (k + 1.0) * g == k * g + g;
      }
    }
  }

  /** Without drag the horizontal speed is kept, and gravity lowers the
      vertical speed by the same amount each step. */
  lemma StepsVelocity(b: Body, width: real, height: real, dt: real, ph: Physics, n: nat)
    requires ph.linearDrag == 0.0
    ensures Steps(b, width, height, dt, ph, n).velocity
      == Vec(b.velocity.x, b.velocity.y - (n as real) * (ph.gravity * dt))
  {
    StepsFall(b, width, height, dt, ph, n);
    FallWithoutDrag(b.velocity, dt, ph, n);
  }

  /** An object of the game: a sprite with physics state. */
  class GameObject {
    var x: real
    var y: real
    var velocity: Vec
    var angularVelocity: real
    var rotation: real
    var scale: real
    const width: real
    const height: real
    const points: int
    var offScreen: bool
    var visible: bool

    /** A new object at (x, y) worth the given points; rotation and scale are
        copied from the template, and it starts at rest and on screen. */
    constructor(sprite: Sprite, x: real, y: real, points: int)
      ensures State() == Body(x, y, Zero, 0.0, sprite.rotation, false)
      ensures scale == sprite.scale && width == sprite.width && height == sprite.height
      ensures this.points == points && visible
    {
      this.x := x;
      this.y := y;
      velocity := Zero;
      angularVelocity := 0.0;
      rotation := sprite.rotation;
      scale := sprite.scale;
      width := sprite.width;
      height := sprite.height;
      this.points := points;
      offScreen := false;
      visible := true;
    }

    function State(): Body
      reads this
    {
      Body(x, y, velocity, angularVelocity, rotation, offScreen)
    }

    /** One physics step; nothing but the physics state changes. */
    method PhysicsUpdate(dt: real, ph: Physics)
      modifies this
      ensures State() == Step(old(State()), width, height, dt, ph)
      ensures scale == old(scale) && visible == old(visible)
    {
      velocity := Accelerate(velocity, dt, ph);
      x := x + velocity.x * dt;
      y := y + velocity.y * dt;
      angularVelocity := angularVelocity * (1.0 - ph.angularDrag);
      rotation := rotation + angularVelocity * dt;
      if x + width < 0.0 || x > WindowWidth as real + width || y + height < 0.0 {
        offScreen := true;
      }
    }
  }
}
