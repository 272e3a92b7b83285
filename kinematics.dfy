/**
 * Bird kinematics shared by both modes: `Bird.jump` and `Bird.move`.
 *
 * Every vertical quantity is kept in integer HALF-units (twice the value the game
 * stores as a float): all constants of the integrator are multiples of 0.5 and birds
 * start at an integer height, so the game's floats are always exact halves.
 */
module Kinematics {

  /** Start height 350. */
  const StartY: int := 700
  /** Jump velocity of the AI mode, -10.5. */
  const AiJumpVel: int := -21
  /** Jump velocity of the player mode, -7.5. */
  const PlayerJumpVel: int := -15
  /** The coefficient 1.5 of tick_count squared. */
  const Gravity: int := 3
  /** Terminal displacement 16 per move. */
  const FallCap: int := 32
  /** A rising displacement is pushed up by 2 more. */
  const RiseBoost: int := 4
  /** The ground line 730 that both modes test birds against. */
  const Floor: int := 1460

  /**
   * A bird's physical state. Its tilt and animation frame are left out; the frame they select
   * also decides the bird's collision mask and height, which the model fixes to the first frame.
   */
  datatype BirdState = BirdState(x: int, y: int, vel: int, tickCount: int, height: int)

  /** A bird as `Bird(x, y)` creates it: at rest, no jump yet. */
  function Spawn(x: int, y: int): BirdState
  {
    BirdState(x, y, 0, 0, y)
  }

  /** The uncapped displacement `vel*t + 1.5*t**2` of the t-th move since the last jump. */
  function Raw(vel: int, t: int): int
  {
    vel * t + Gravity * t * t
  }

  /** The displacement actually applied for a raw displacement. */
  function Clamp(raw: int): int
  {
    if raw >= FallCap then FallCap else if raw < 0 then raw - RiseBoost else raw
  }

  /** `jump`: set the upward velocity, restart the tick counter and remember the height. */
  function JumpBird(b: BirdState, vel: int): (r: BirdState)
    ensures r.vel == vel && r.tickCount == 0 && r.height == b.y
    ensures r.y == b.y && r.x == b.x
  {
    b.(vel := vel, tickCount := 0, height := b.y)
  }

  /** `move`: one tick of the integrator. */
  function MoveBird(b: BirdState): (r: BirdState)
    ensures r.tickCount == b.tickCount + 1
    ensures r.y - b.y <= FallCap
    ensures Raw(b.vel, r.tickCount) < 0 ==> r.y - b.y == Raw(b.vel, r.tickCount) - RiseBoost
    ensures 0 <= Raw(b.vel, r.tickCount) < FallCap ==> r.y - b.y == Raw(b.vel, r.tickCount)
    ensures FallCap <= Raw(b.vel, r.tickCount) ==> r.y - b.y == FallCap
    ensures r.x == b.x && r.vel == b.vel && r.height == b.height
  {
    var t := b.tickCount + 1;
    b.(tickCount := t, y := b.y + Clamp(Raw(b.vel, t)))
  }

  /** n consecutive moves. */
  function Fly(b: BirdState, n: nat): BirdState
  {
    if n == 0 then b else MoveBird(Fly(b, n - 1))
  }

  /** Total displacement of the first n moves after a jump with velocity vel. */
  function Rise(vel: int, n: nat): int
  {
    if n == 0 then 0 else Rise(vel, n - 1) + Clamp(Raw(vel, n))
  }

  /** The displacements of the first n moves after a jump with velocity vel. */
  function Profile(vel: int, n: nat): seq<int>
  {
    seq(n, k => Clamp(Raw(vel, k + 1)))
  }

  /** Python's `round` on a value given in half-units: halves go to the even neighbour. */
  function RoundHalf(y: int): (r: int)
    ensures -1 <= 2 * r - y <= 1
    ensures y % 2 == 0 ==> 2 * r == y
    ensures y % 2 == 1 ==> r % 2 == 0
  {
    if y % 2 == 0 then y / 2
    else
      var k := (y - 1) / 2;
      if k % 2 == 0 then k else k + 1
  }

  /** The three properties of RoundHalf determine it: it is exactly round-half-to-even. */
  lemma RoundHalfUnique(y: int, r: int)
    requires -1 <= 2 * r - y <= 1
    requires y % 2 == 0 ==> 2 * r == y
    requires y % 2 == 1 ==> r % 2 == 0
    ensures r == RoundHalf(y)
  {
    var q := RoundHalf(y);
    if y % 2 == 1 {
      assert 2 * r == y - 1 || 2 * r == y + 1;
      assert 2 * q == y - 1 || 2 * q == y + 1;
    }
  }

  /** Moves after a jump: the bird sits at the jump height plus Rise, and the tick counter counts the moves. */
  lemma {:induction false} FlyAfterJump(b: BirdState, vel: int, n: nat)
    ensures Fly(JumpBird(b, vel), n) == b.(y := b.y + Rise(vel, n), vel := vel, tickCount := n, height := b.y)
  {
    if n > 0 {
      FlyAfterJump(b, vel, n - 1);
    }
  }

  /** From tick t0 on, the raw displacement no longer decreases once 3*t0 + vel >= 0. */
  lemma RawFrom(vel: int, t0: int, t: int)
    requires 0 <= t0 <= t && Gravity * t0 + vel >= 0
    ensures Raw(vel, t) >= Raw(vel, t0)
  {
    var d := t - t0;
    assert Raw(vel, t) - Raw(vel, t0) == d * (vel + Gravity * (t + t0));
    assert vel + Gravity * (t + t0) >= 0;
  }

  /** After t0 moves, if move t0 already falls and every later move falls too, the bird never again rises above it. */
  lemma {:induction false} RiseFrom(vel: int, t0: nat, n: nat)
    requires t0 <= n
    requires forall t :: t0 < t <= n ==> Raw(vel, t) >= 0
    ensures Rise(vel, n) >= Rise(vel, t0)
  {
    if n > t0 {
      RiseFrom(vel, t0, n - 1);
    }
  }

  /**
   * An AI jump: moves displace the bird by -11, -17, -20, -20, -17, -11, 0, 12, 16, 16, ...
   * Six rising moves lift it 96 units, the highest it gets, and from the ninth move on it falls 16 per tick.
   */
  lemma AiJumpArc(b: BirdState)
    ensures Profile(AiJumpVel, 10) == [-22, -34, -40, -40, -34, -22, 0, 24, 32, 32]
    ensures Fly(JumpBird(b, AiJumpVel), 6).y == b.y - 192
    ensures forall n: nat :: Fly(JumpBird(b, AiJumpVel), n).y >= b.y - 192
    ensures forall t :: t >= 9 ==> Clamp(Raw(AiJumpVel, t)) == FallCap
  {
    var p := Profile(AiJumpVel, 10);
    assert p[0] == -22 && p[1] == -34 && p[2] == -40 && p[3] == -40 && p[4] == -34;
    assert p[5] == -22 && p[6] == 0 && p[7] == 24 && p[8] == 32 && p[9] == 32;
    FlyAfterJump(b, AiJumpVel, 6);
    assert Rise(AiJumpVel, 6) == -192 by {
      assert Rise(AiJumpVel, 1) == -22;
      assert Rise(AiJumpVel, 2) == -56;
      assert Rise(AiJumpVel, 3) == -96;
      assert Rise(AiJumpVel, 4) == -136;
      assert Rise(AiJumpVel, 5) == -170;
    }
    forall t | t >= 9
      ensures Clamp(Raw(AiJumpVel, t)) == FallCap
    {
      RawFrom(AiJumpVel, 9, t);
    }
    forall n: nat
      ensures Fly(JumpBird(b, AiJumpVel), n).y >= b.y - 192
    {
      FlyAfterJump(b, AiJumpVel, n);
      if n < 6 {
        assert Rise(AiJumpVel, 1) == -22;
        assert Rise(AiJumpVel, 2) == -56;
        assert Rise(AiJumpVel, 3) == -96;
        assert Rise(AiJumpVel, 4) == -136;
        assert Rise(AiJumpVel, 5) == -170;
      } else {
        forall t | 6 < t <= n
          ensures Raw(AiJumpVel, t) >= 0
        {
          RawFrom(AiJumpVel, 7, t);
        }
        RiseFrom(AiJumpVel, 6, n);
      }
    }
  }

  /**
   * A player jump: moves displace the bird by -8, -11, -11, -8, 0, 9, 16, 16, ...
   * Four rising moves lift it 38 units, the highest it gets, and from the seventh move on it falls 16 per tick.
   */
  lemma PlayerJumpArc(b: BirdState)
    ensures Profile(PlayerJumpVel, 8) == [-16, -22, -22, -16, 0, 18, 32, 32]
    ensures Fly(JumpBird(b, PlayerJumpVel), 4).y == b.y - 76
    ensures forall n: nat :: Fly(JumpBird(b, PlayerJumpVel), n).y >= b.y - 76
    ensures forall t :: t >= 7 ==> Clamp(Raw(PlayerJumpVel, t)) == FallCap
  {
    var p := Profile(PlayerJumpVel, 8);
    assert p[0] == -16 && p[1] == -22 && p[2] == -22 && p[3] == -16;
    assert p[4] == 0 && p[5] == 18 && p[6] == 32 && p[7] == 32;
    FlyAfterJump(b, PlayerJumpVel, 4);
    assert Rise(PlayerJumpVel, 4) == -76 by {
      assert Rise(PlayerJumpVel, 1) == -16;
      assert Rise(PlayerJumpVel, 2) == -38;
      assert Rise(PlayerJumpVel, 3) == -60;
    }
    forall t | t >= 7
      ensures Clamp(Raw(PlayerJumpVel, t)) == FallCap
    {
      RawFrom(PlayerJumpVel, 7, t);
    }
    forall n: nat
      ensures Fly(JumpBird(b, PlayerJumpVel), n).y >= b.y - 76
    {
      FlyAfterJump(b, PlayerJumpVel, n);
      if n < 4 {
        assert Rise(PlayerJumpVel, 1) == -16;
        assert Rise(PlayerJumpVel, 2) == -38;
        assert Rise(PlayerJumpVel, 3) == -60;
      } else {
        forall t | 4 < t <= n
          ensures Raw(PlayerJumpVel, t) >= 0
        {
          RawFrom(PlayerJumpVel, 5, t);
        }
        RiseFrom(PlayerJumpVel, 4, n);
      }
    }
  }

  /** A `Bird` object: the fields `jump` and `move` update in place. */
  class Bird {
    const x: int
    var y: int
    var vel: int
    var tickCount: int
    var height: int
    /** The mode's jump velocity preset (AiJumpVel or PlayerJumpVel). */
    const jumpVel: int

    function State(): BirdState
      reads this
    {
      BirdState(x, y, vel, tickCount, height)
    }

    constructor (x: int, y: int, jumpVel: int)
      ensures State() == Spawn(x, y) && this.jumpVel == jumpVel
    {
      this.x := x;
      this.y := y;
      this.vel := 0;
      this.tickCount := 0;
      this.height := y;
      this.jumpVel := jumpVel;
    }

    method Jump()
      modifies this
      ensures State() == JumpBird(old(State()), jumpVel)
    {
      vel := jumpVel;
      tickCount := 0;
      height := y;
    }

    method Move()
      modifies this
      ensures State() == MoveBird(old(State()))
    {
      tickCount := tickCount + 1;
      var d := vel * tickCount + Gravity * tickCount * tickCount;
      if d >= FallCap {
        d := FallCap;
      } else if d < 0 {
        d := d - RiseBoost;
      }
      y := y + d;
    }
  }
}
