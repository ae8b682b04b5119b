/** The player character: its counters, the gravity ramp, the jump budget,
    damage with a cooldown, and the choice of animation. */
module PlayerModel {
  import opened Wrappers
  import opened Geometry
  import opened Sprites

  /** Gravity constant (pixels per tick per tick) and animation delay. */
  const GRAVITY: int := 1
  const ANIMATION_DELAY: Count := 3
  const START_HEALTH: int := 5

  /** Fraction of gravity applied after `fallCount` ticks in the air: it
      ramps linearly from nothing to full force over the first second. */
  function GravityRamp(fallCount: nat, fps: nat): (g: real)
    requires fps > 0
    ensures 0.0 <= g <= 1.0
    ensures fallCount == 0 ==> g == 0.0
    ensures fallCount >= fps ==> g == 1.0
    ensures fallCount < fps ==> g * fps as real == fallCount as real
  {
    var ramp := (fallCount as real / fps as real) * GRAVITY as real;
    if 1.0 <= ramp then 1.0 else ramp
  }

  /** Animation chosen from the physical state, by priority: hit, then
      ascending (single or double jump), then falling faster than twice the
      gravity, then running, then idle. */
  function SelectAnimation(hit: bool, yVel: real, jumpCount: nat, xVel: int): (a: PlayerAnim)
    ensures a == Hit <==> hit
    ensures a == Jump <==> !hit && yVel < 0.0 && jumpCount == 1
    ensures a == DoubleJump <==> !hit && yVel < 0.0 && jumpCount == 2
    ensures a == Fall <==> !hit && yVel > 2.0 * GRAVITY as real
    ensures a == Run <==> !hit && 0.0 <= yVel <= 2.0 * GRAVITY as real && xVel != 0
    ensures a == Idle <==> !hit && ((yVel < 0.0 && jumpCount != 1 && jumpCount != 2) ||
                                    (0.0 <= yVel <= 2.0 * GRAVITY as real && xVel == 0))
  {
    if hit then Hit
    else if yVel < 0.0 then
      (if jumpCount == 1 then Jump else if jumpCount == 2 then DoubleJump else Idle)
    else if yVel > (GRAVITY * 2) as real then Fall
    else if xVel != 0 then Run
    else Idle
  }

  /** Every field of a player, as one value. */
  datatype PlayerSnapshot = PlayerSnapshot(
    rect: Rect, xVel: int, yVel: real, direction: Direction,
    animationCount: nat, fallCount: nat, jumpCount: nat,
    hit: bool, hitCount: nat, hitTimes: nat, health: int,
    sprite: Option<Frame>, mask: Option<Frame>)

  /** The state after one damage hit: the hit state is entered and one
      health point is charged unless a hit was already charged. */
  function Hurt(s: PlayerSnapshot): (t: PlayerSnapshot)
    ensures t.hit && t.hitTimes == if s.hitTimes == 0 then 1 else s.hitTimes
    ensures t.health == if s.hitTimes == 0 then s.health - 1 else s.health
    ensures t == s.(hit := t.hit, health := t.health, hitTimes := t.hitTimes)
  {
    s.(hit := true, health := if s.hitTimes == 0 then s.health - 1 else s.health,
       hitTimes := if s.hitTimes == 0 then 1 else s.hitTimes)
  }

  /** Any number of hits in a row cost one health point at most, and none
      once a hit has been charged. */
  lemma {:induction false} HurtRepeatedly(s: PlayerSnapshot, n: nat)
    requires n > 0
    ensures HurtN(s, n).health == if s.hitTimes == 0 then s.health - 1 else s.health
    ensures HurtN(s, n) == Hurt(s)
  {
    if n > 1 {
      HurtRepeatedly(s, n - 1);
      assert HurtN(s, n) == Hurt(HurtN(s, n - 1));
    }
  }

  /** The damage cooldown: at most one hit is charged per cooldown, the
      charge is only recorded while the player is in the hit state, and the
      cooldown timer only runs in the hit state. */
  predicate Cooldown(s: PlayerSnapshot) {
    s.hitTimes <= 1 && (s.hitTimes == 1 ==> s.hit) && (s.hitCount > 0 ==> s.hit)
  }

  /** A hit keeps the cooldown invariant and moves a point from health to the
      charge counter, or charges nothing when a hit was already charged. */
  lemma HurtKeepsCooldown(s: PlayerSnapshot)
    requires Cooldown(s)
    ensures Cooldown(Hurt(s))
    ensures Hurt(s).health + Hurt(s).hitTimes == s.health + s.hitTimes
    ensures Hurt(s).health >= s.health - 1
  {
  }

  /** The rectangle and mask recomputed from the current image: same top-left
      corner, the image's size, the mask of the image. */
  function Redrawn(s: PlayerSnapshot, assets: Assets): (t: PlayerSnapshot)
    requires s.sprite.Some?
    ensures t.mask == t.sprite == s.sprite
    ensures t.rect.x == s.rect.x && t.rect.y == s.rect.y
    ensures t.rect.w == assets.width(s.sprite.value.sheet) && t.rect.h == assets.height(s.sprite.value.sheet)
    ensures t == s.(rect := t.rect, mask := t.mask)
  {
    s.(rect := Rect(s.rect.x, s.rect.y, assets.width(s.sprite.value.sheet), assets.height(s.sprite.value.sheet)),
       mask := s.sprite)
  }

  /** Redrawing twice is redrawing once, and moving a redrawn player and
      redrawing it again only moves it. */
  lemma RedrawnIdempotent(s: PlayerSnapshot, assets: Assets, dx: int)
    requires s.sprite.Some?
    ensures Redrawn(Redrawn(s, assets), assets) == Redrawn(s, assets)
    ensures var t := Redrawn(s, assets);
            Redrawn(t.(rect := t.rect.(x := t.rect.x + dx)), assets) == t.(rect := t.rect.(x := t.rect.x + dx))
  {
  }

  /** Running in a direction at speed `vel`: the run cycle restarts only when
      the direction changes. */
  function Steered(s: PlayerSnapshot, d: Direction, vel: int): (t: PlayerSnapshot)
    ensures t.xVel == (if d == Left then -vel else vel) && t.direction == d
    ensures t.animationCount == if s.direction != d then 0 else s.animationCount
    ensures t == s.(xVel := t.xVel, direction := d, animationCount := t.animationCount)
  {
    s.(xVel := if d == Left then -vel else vel, direction := d,
       animationCount := if s.direction != d then 0 else s.animationCount)
  }

  /** A trampoline bounce: a larger upward impulse that does not use the
      jump budget. */
  function Bounce(s: PlayerSnapshot): (t: PlayerSnapshot)
    ensures t.yVel == (-GRAVITY * 12) as real && t.animationCount == 0
    ensures t == s.(yVel := t.yVel, animationCount := 0)
  {
    s.(yVel := (-GRAVITY * 12) as real, animationCount := 0)
  }

  /** Touching ground ends the flight: no vertical speed, the jump budget and
      the gravity ramp restart. */
  function Land(s: PlayerSnapshot): (t: PlayerSnapshot)
    ensures t.yVel == 0.0 && t.fallCount == 0 && t.jumpCount == 0
    ensures t == s.(yVel := 0.0, fallCount := t.fallCount, jumpCount := t.jumpCount)
  {
    s.(fallCount := 0, yVel := 0.0, jumpCount := 0)
  }

  /** Bumping a ceiling reverses the vertical speed. */
  function BumpHead(s: PlayerSnapshot): (t: PlayerSnapshot)
    ensures t.yVel == -s.yVel
    ensures t == s.(yVel := t.yVel)
  {
    s.(yVel := -s.yVel)
  }

  /** A normal jump: a fixed upward impulse and one more jump used; the
      first jump of a flight also restarts the gravity ramp. */
  function Leap(s: PlayerSnapshot): (t: PlayerSnapshot)
    ensures t.yVel == (-GRAVITY * 8) as real && t.animationCount == 0 && t.jumpCount == s.jumpCount + 1
    ensures t.fallCount == if s.jumpCount == 0 then 0 else s.fallCount
    ensures t == s.(yVel := t.yVel, animationCount := 0, jumpCount := t.jumpCount, fallCount := t.fallCount)
  {
    s.(yVel := (-GRAVITY * 8) as real, animationCount := 0, jumpCount := s.jumpCount + 1,
       fallCount := if s.jumpCount == 0 then 0 else s.fallCount)
  }

  /** The motion half of a physics tick: the gravity ramp is added to the
      vertical speed, the player moves by its speeds (the vertical position
      rounded to a pixel), the hit timer counts and clears the hit state once
      it passes two seconds, and the air-time counter grows. */
  function Kinematics(s: PlayerSnapshot, fps: nat, assets: Assets): (t: PlayerSnapshot)
    requires fps > 0
    ensures t.yVel == s.yVel + GravityRamp(s.fallCount, fps)
    ensures t.rect == s.rect.(x := s.rect.x + s.xVel, y := assets.toPixel(s.rect.y as real + t.yVel))
    ensures t.fallCount == s.fallCount + 1
    ensures var counted := if s.hit then s.hitCount + 1 else s.hitCount;
            if counted > fps * 2 then !t.hit && t.hitCount == 0 && t.hitTimes == 0
            else t.hit == s.hit && t.hitCount == counted && t.hitTimes == s.hitTimes
    ensures t == s.(yVel := t.yVel, rect := t.rect, hit := t.hit, hitCount := t.hitCount, hitTimes := t.hitTimes,
                    fallCount := t.fallCount)
  {
    var yVel := s.yVel + GravityRamp(s.fallCount, fps);
    var counted := if s.hit then s.hitCount + 1 else s.hitCount;
    var reset := counted > fps * 2;
    s.(yVel := yVel, rect := s.rect.(x := s.rect.x + s.xVel, y := assets.toPixel(s.rect.y as real + yVel)),
       hit := if reset then false else s.hit, hitCount := if reset then 0 else counted,
       hitTimes := if reset then 0 else s.hitTimes, fallCount := s.fallCount + 1)
  }

  /** The drawing half of a tick: the sheet the state calls for shows the
      frame its counter has reached, the counter advances, and the
      rectangle (at the same corner) and the mask are redrawn from it. */
  function Animated(s: PlayerSnapshot, assets: Assets): (t: PlayerSnapshot)
    ensures var sheet := PlayerSheet(SelectAnimation(s.hit, s.yVel, s.jumpCount, s.xVel), s.direction);
            t.sprite == Some(Frame(sheet, FrameIndex(s.animationCount, ANIMATION_DELAY, assets.frames(sheet)))) &&
            t.mask == t.sprite &&
            t.rect == Rect(s.rect.x, s.rect.y, assets.width(sheet), assets.height(sheet)) &&
            t.animationCount == s.animationCount + 1
    ensures t == s.(sprite := t.sprite, mask := t.mask, rect := t.rect, animationCount := t.animationCount)
  {
    var sheet := PlayerSheet(SelectAnimation(s.hit, s.yVel, s.jumpCount, s.xVel), s.direction);
    var frame := Frame(sheet, FrameIndex(s.animationCount, ANIMATION_DELAY, assets.frames(sheet)));
    s.(sprite := Some(frame), mask := Some(frame), rect := Rect(s.rect.x, s.rect.y, assets.width(sheet), assets.height(sheet)),
       animationCount := s.animationCount + 1)
  }

  /** One tick of physics: the motion, then the animation chosen for the
      new state advances one frame, with the rectangle and mask redrawn from
      it. Health is never touched and the cooldown is kept. */
  function Physics(s: PlayerSnapshot, fps: nat, assets: Assets): (t: PlayerSnapshot)
    requires fps > 0
    ensures t.yVel == s.yVel + GravityRamp(s.fallCount, fps)
    ensures s.fallCount == 0 ==> t.yVel == s.yVel
    ensures s.fallCount >= fps ==> t.yVel == s.yVel + 1.0
    ensures t.rect.x == s.rect.x + s.xVel && t.rect.y == assets.toPixel(s.rect.y as real + t.yVel)
    ensures t.fallCount == s.fallCount + 1
    ensures t.hitCount <= 2 * fps
    ensures var counted := if s.hit then s.hitCount + 1 else s.hitCount;
            if counted > fps * 2 then !t.hit && t.hitCount == 0 && t.hitTimes == 0
            else t.hit == s.hit && t.hitCount == counted && t.hitTimes == s.hitTimes
    ensures t.xVel == s.xVel && t.direction == s.direction && t.jumpCount == s.jumpCount
    ensures t.health == s.health
    ensures Cooldown(s) ==> Cooldown(t)
    ensures t.sprite.Some? && t.mask == t.sprite
    ensures t.sprite.value.sheet == PlayerSheet(SelectAnimation(t.hit, t.yVel, t.jumpCount, t.xVel), t.direction)
    ensures t.rect.w == assets.width(t.sprite.value.sheet) && t.rect.h == assets.height(t.sprite.value.sheet)
    ensures t.animationCount == s.animationCount + 1
    ensures t.sprite.value.index == FrameIndex(s.animationCount, ANIMATION_DELAY, assets.frames(t.sprite.value.sheet))
  {
    Animated(Kinematics(s, fps, assets), assets)
  }

  /** The state after n consecutive hits. */
  function HurtN(s: PlayerSnapshot, n: nat): PlayerSnapshot {
    if n == 0 then s else Hurt(HurtN(s, n - 1))
  }

  class Player {
    var rect: Rect
    var xVel: int
    var yVel: real
    var direction: Direction
    var animationCount: nat
    var fallCount: nat
    var jumpCount: nat
    var hit: bool
    var hitCount: nat
    var hitTimes: nat
    var health: int
    /** The image shown and the image the mask was last computed from; both
        absent until the first animation update. */
    var sprite: Option<Frame>
    var mask: Option<Frame>

    ghost function Snapshot(): PlayerSnapshot
      reads this
    {
      PlayerSnapshot(rect, xVel, yVel, direction, animationCount, fallCount, jumpCount,
                     hit, hitCount, hitTimes, health, sprite, mask)
    }

    /** The damage cooldown invariant holds. */
    ghost predicate Valid()
      reads this
    {
      Cooldown(Snapshot())
    }

    /** The rectangle, mask and image agree: the state after an animation update. */
    ghost predicate Drawn(assets: Assets)
      reads this
    {
      sprite.Some? && mask == sprite &&
      rect.w == assets.width(sprite.value.sheet) && rect.h == assets.height(sprite.value.sheet)
    }

    /** The player's mask placed at its current position. */
    function Placement(): Placed
      reads this
      requires mask.Some?
    {
      Placed(mask.value, rect.x, rect.y)
    }

    constructor (x: int, y: int, width: nat, height: nat)
      ensures Valid()
      ensures Snapshot() == PlayerSnapshot(Rect(x, y, width, height), 0, 0.0, Left, 0, 0, 0,
                                           false, 0, 0, START_HEALTH, None, None)
    {
      rect := Rect(x, y, width, height);
      xVel, yVel := 0, 0.0;
      direction := Left;
      animationCount, fallCount, jumpCount := 0, 0, 0;
      hit, hitCount, hitTimes := false, 0, 0;
      health := START_HEALTH;
      sprite, mask := None, None;
    }

    /** A normal jump: fixed upward impulse, one more jump used; the first
        jump of a flight also restarts the gravity ramp. */
    method Jump()
      modifies this
      ensures Snapshot() == Leap(old(Snapshot()))
    {
      yVel := (-GRAVITY * 8) as real;
      animationCount := 0;
      jumpCount := jumpCount + 1;
      if jumpCount == 1 {
        fallCount := 0;
      }
    }

    /** A trampoline bounce: a larger impulse that does not use the jump budget. */
    method JumpTrampoline()
      modifies this
      ensures Snapshot() == Bounce(old(Snapshot()))
    {
      yVel := (-GRAVITY * 12) as real;
      animationCount := 0;
    }

    method Move(dx: int, dy: int)
      modifies this
      ensures Snapshot() == old(Snapshot()).(rect := old(rect).(x := old(rect.x) + dx, y := old(rect.y) + dy))
    {
      rect := rect.(x := rect.x + dx, y := rect.y + dy);
    }

    /** Damage: enters the hit state; health drops by one only if no hit has
        been charged since the cooldown last cleared. */
    method MakeHit()
      requires Valid()
      modifies this
      ensures Valid()
      ensures Snapshot() == Hurt(old(Snapshot()))
      ensures health + hitTimes == old(health + hitTimes)
    {
      hit := true;
      if hit && hitTimes == 0 {
        health := health - 1;
        hitTimes := hitTimes + 1;
      }
    }

    /** Running left; the run cycle restarts only when the direction changes. */
    method MoveLeft(vel: int)
      modifies this
      ensures Snapshot() == Steered(old(Snapshot()), Left, vel)
    {
      xVel := -vel;
      if direction != Left {
        direction := Left;
        animationCount := 0;
      }
    }

    /** Running right; the run cycle restarts only when the direction changes. */
    method MoveRight(vel: int)
      modifies this
      ensures Snapshot() == Steered(old(Snapshot()), Right, vel)
    {
      xVel := vel;
      if direction != Right {
        direction := Right;
        animationCount := 0;
      }
    }

    /** Touching ground: the flight is over. */
    method Landed()
      modifies this
      ensures Snapshot() == Land(old(Snapshot()))
    {
      fallCount := 0;
      yVel := 0.0;
      jumpCount := 0;
    }

    /** Bumping a ceiling: the vertical velocity is reversed. */
    method HitHead()
      modifies this
      ensures Snapshot() == BumpHead(old(Snapshot()))
    {
      yVel := -yVel;
    }

    /** Recomputes the rectangle (same top-left corner, size of the image) and
        the mask from the current image. */
    method Update(assets: Assets)
      requires sprite.Some?
      modifies this
      ensures Snapshot() == Redrawn(old(Snapshot()), assets)
      ensures Drawn(assets)
    {
      rect := Rect(rect.x, rect.y, assets.width(sprite.value.sheet), assets.height(sprite.value.sheet));
      mask := sprite;
    }

    /** Picks the animation for the current state and advances its frame counter. */
    method UpdateSprite(assets: Assets)
      modifies this
      ensures Snapshot() == Animated(old(Snapshot()), assets)
      ensures Drawn(assets)
    {
      var sheet := PlayerSheet(SelectAnimation(hit, yVel, jumpCount, xVel), direction);
      var index := FrameIndex(animationCount, ANIMATION_DELAY, assets.frames(sheet));
      sprite := Some(Frame(sheet, index));
      animationCount := animationCount + 1;
      Update(assets);
    }

    /** One tick of physics for the player, as `Physics` describes. */
    method Loop(fps: nat, assets: Assets)
      requires fps > 0 && Valid()
      modifies this
      ensures Snapshot() == Physics(old(Snapshot()), fps, assets)
      ensures Valid() && Drawn(assets)
    {
      Accelerate(fps, assets);
      UpdateSprite(assets);
    }

    /** The motion half of `Loop`, as `Kinematics` describes it. */
    method Accelerate(fps: nat, assets: Assets)
      requires fps > 0
      modifies this
      ensures Snapshot() == Kinematics(old(Snapshot()), fps, assets)
    {
      var ramp := GravityRamp(fallCount, fps);
      yVel := yVel + ramp;
      rect := rect.(x := rect.x + xVel, y := assets.toPixel(rect.y as real + yVel));

      if hit {
        hitCount := hitCount + 1;
      }
      if hitCount > fps * 2 {
        hit := false;
        hitCount := 0;
        hitTimes := 0;
      }

      fallCount := fallCount + 1;
    }
  }
}
