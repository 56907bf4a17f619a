/**
 * The game's entities: the paddle (Player), the blocks and the balls.
 * Each has a value view (`BallState`, `BlockState`, the player's `Rect`)
 * used by the specifications, and a class whose fields the game updates in
 * place. Key state, frame time and screen size are parameters.
 */
module Entities {
  import opened Geometry

  const PlayerWidth: real := 150.0
  const PlayerHeight: real := 40.0
  const PlayerSpeed: real := 700.0
  const BlockWidth: real := 100.0
  const BlockHeight: real := 40.0
  const BallSize: real := 50.0
  const BallSpeed: real := 400.0

  datatype BlockType = Regular | SpawnBallOnDeath

  datatype BallState = BallState(rect: Rect, vel: Vec2)

  datatype BlockState = BlockState(rect: Rect, lives: int, kind: BlockType)

  /** Where a new paddle is put: centred horizontally, 100 units above the bottom. */
  function NewPlayer(width: real, height: real): (r: Rect)
    ensures r.w == PlayerWidth && r.h == PlayerHeight
    ensures Center(r).x == width / 2.0
    ensures r.y + r.h == height - 60.0
  {
    Rect(width * 0.5 - PlayerWidth * 0.5, height - 100.0, PlayerWidth, PlayerHeight)
  }

  /** The held arrow keys as a direction: -1 for left, +1 for right, 0 for both or none. */
  function Steering(left: bool, right: bool): real
  {
    (if left then -1.0 else 0.0) + (if right then 1.0 else 0.0)
  }

  /**
   * One paddle update: move horizontally by the steering times `dt` times the
   * paddle speed, then clamp to the field.
   */
  function PlayerStep(r: Rect, dt: real, left: bool, right: bool, width: real): (r': Rect)
    ensures r'.y == r.y && r'.w == r.w && r'.h == r.h
    ensures r'.x <= width - r.w
    ensures width >= r.w ==> 0.0 <= r'.x
    ensures var x := r.x + Steering(left, right) * dt * PlayerSpeed;
            && (0.0 <= x <= width - r.w ==> r'.x == x)
            && (x < 0.0 && width >= r.w ==> r'.x == 0.0)
            && (x > width - r.w ==> r'.x == width - r.w)
            && (width < r.w ==> r'.x == width - r.w)
  {
    var moved := r.x + Steering(left, right) * dt * PlayerSpeed;
    var x1 := if moved < 0.0 then 0.0 else moved;
    var x2 := if x1 > width - r.w then width - r.w else x1;
    r.(x := x2)
  }

  /** The paddle after a series of updates, one (dt, left, right, width) input per frame. */
  function PlayerRun(r: Rect, frames: seq<(real, bool, bool, real)>): Rect
    decreases |frames|
  {
    if frames == [] then r
    else
      var f := frames[|frames| - 1];
      PlayerStep(PlayerRun(r, frames[..|frames| - 1]), f.0, f.1, f.2, f.3)
  }

  /**
   * Bounds invariant: whatever keys are held and for however long, once the
   * paddle has been updated at least once on a field of fixed width at least
   * its own, it lies inside [0, width - w] and keeps its height and size.
   */
  lemma {:induction false} PlayerStaysOnField(r: Rect, frames: seq<(real, bool, bool, real)>, width: real)
    requires frames != []
    requires width >= r.w
    requires forall k :: 0 <= k < |frames| ==> frames[k].3 == width
    ensures var r' := PlayerRun(r, frames);
            0.0 <= r'.x <= width - r.w && r'.y == r.y && r'.w == r.w && r'.h == r.h
  {
    var prefix := frames[..|frames| - 1];
    if prefix != [] {
      PlayerStaysOnField(r, prefix, width);
    } else {
      assert PlayerRun(r, prefix) == r;
    }
  }

  /**
   * One ball update: advance by velocity times `dt` times the ball speed,
   * then bounce off the left, right and top edges by forcing the velocity
   * component inwards. There is no bottom edge.
   */
  function BallStep(b: BallState, dt: real, width: real): (r: BallState)
    ensures r.rect == b.rect.(x := b.rect.x + b.vel.x * dt * BallSpeed, y := b.rect.y + b.vel.y * dt * BallSpeed)
    ensures r.rect.x > width - r.rect.w ==> r.vel.x == -1.0
    ensures r.rect.x < 0.0 && r.rect.x <= width - r.rect.w ==> r.vel.x == 1.0
    ensures 0.0 <= r.rect.x <= width - r.rect.w ==> r.vel.x == b.vel.x
    ensures r.rect.y < 0.0 ==> r.vel.y == 1.0
    ensures r.rect.y >= 0.0 ==> r.vel.y == b.vel.y
  {
    var rect := b.rect.(x := b.rect.x + b.vel.x * dt * BallSpeed, y := b.rect.y + b.vel.y * dt * BallSpeed);
    var vx := if rect.x < 0.0 then 1.0 else b.vel.x;
    var vx' := if rect.x > width - rect.w then -1.0 else vx;
    var vy := if rect.y < 0.0 then 1.0 else b.vel.y;
    BallState(rect, Vec2(vx', vy))
  }

  /**
   * No floor: a ball at or below the top edge and heading down is never
   * turned back by an update, however low it is. It keeps its vertical
   * velocity and falls by that velocity times `dt` times the ball speed.
   */
  lemma BallIgnoresFloor(b: BallState, dt: real, width: real)
    requires b.rect.y >= 0.0 && b.vel.y > 0.0 && dt >= 0.0
    ensures BallStep(b, dt, width).vel.y == b.vel.y
    ensures BallStep(b, dt, width).rect.y == b.rect.y + b.vel.y * dt * BallSpeed >= b.rect.y
  {
    NonNegativeProduct(b.vel.y, dt);
  }

  lemma NonNegativeProduct(x: real, y: real)
    requires x >= 0.0 && y >= 0.0
    ensures x * y >= 0.0
  {
  }

  function NewBall(pos: Vec2, vel: Vec2): BallState
  {
    BallState(Rect(pos.x, pos.y, BallSize, BallSize), vel)
  }

  function NewBlock(pos: Vec2, kind: BlockType): BlockState
  {
    BlockState(Rect(pos.x, pos.y, BlockWidth, BlockHeight), 2, kind)
  }

  /** The paddle; only its horizontal position ever changes. */
  class Player {
    var rect: Rect

    constructor(width: real, height: real)
      ensures rect == NewPlayer(width, height)
    {
      rect := Rect(width * 0.5 - PlayerWidth * 0.5, height - 100.0, PlayerWidth, PlayerHeight);
    }

    method Update(dt: real, left: bool, right: bool, width: real)
      modifies this
      ensures rect == PlayerStep(old(rect), dt, left, right, width)
    {
      var xMove := 0.0;
      if left {
        xMove := xMove - 1.0;
      }
      if right {
        xMove := xMove + 1.0;
      }
      rect := rect.(x := rect.x + xMove * dt * PlayerSpeed);
      if rect.x < 0.0 {
        rect := rect.(x := 0.0);
      }
      if rect.x > width - rect.w {
        rect := rect.(x := width - rect.w);
      }
    }
  }

  /** A block: fixed rectangle, a lives counter the game decrements, a type tag. */
  class Block {
    var rect: Rect
    var lives: int
    var kind: BlockType

    ghost function State(): BlockState
      reads this
    {
      BlockState(rect, lives, kind)
    }

    constructor(pos: Vec2, kind: BlockType)
      ensures State() == NewBlock(pos, kind)
    {
      rect := Rect(pos.x, pos.y, BlockWidth, BlockHeight);
      lives := 2;
      this.kind := kind;
    }
  }

  /**
   * A ball. Its initial velocity is a parameter: the game draws a random
   * horizontal component in [-1, 1], pairs it with 1 and normalises.
   */
  class Ball {
    var rect: Rect
    var vel: Vec2

    ghost function State(): BallState
      reads this
    {
      BallState(rect, vel)
    }

    constructor(pos: Vec2, vel: Vec2)
      ensures State() == NewBall(pos, vel)
    {
      rect := Rect(pos.x, pos.y, BallSize, BallSize);
      this.vel := vel;
    }

    method Update(dt: real, width: real)
      modifies this
      ensures State() == BallStep(old(State()), dt, width)
    {
      rect := rect.(x := rect.x + vel.x * dt * BallSpeed);
      rect := rect.(y := rect.y + vel.y * dt * BallSpeed);
      if rect.x < 0.0 {
        vel := vel.(x := 1.0);
      }
      if rect.x > width - rect.w {
        vel := vel.(x := -1.0);
      }
      if rect.y < 0.0 {
        vel := vel.(y := 1.0);
      }
    }
  }
}
