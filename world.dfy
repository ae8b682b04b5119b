/** The world objects of a level: terrain blocks and spikes (values that never
    change) and the animated hazards fire, trampoline and rock head (objects
    whose fields are updated every tick), gathered in one tagged union. */
module World {
  import opened Wrappers
  import opened Geometry
  import opened Sprites
  import opened PlayerModel

  /** The class of an object, which also fixes its reaction name:
      blocks have none, the others are "spike", "fire", "trampoline" and "rock_head". */
  datatype Kind = BlockKind | SpikeKind | FireKind | TrampolineKind | RockHeadKind

  datatype Entity =
    | Block(rect: Rect, material: Material)
    | Spike(rect: Rect, orientation: Orientation)
    | FireObj(fire: Fire)
    | TrampolineObj(trampoline: Trampoline)
    | RockHeadObj(rockHead: RockHead)

  /** What a collision test sees of an object: its class, its placed mask and its rectangle. */
  datatype View = View(kind: Kind, placed: Placed, rect: Rect)

  function KindOf(e: Entity): Kind {
    match e
    case Block(_, _) => BlockKind
    case Spike(_, _) => SpikeKind
    case FireObj(_) => FireKind
    case TrampolineObj(_) => TrampolineKind
    case RockHeadObj(_) => RockHeadKind
  }

  /** The heap objects an entity consists of. */
  function Ref(e: Entity): set<object> {
    match e
    case Block(_, _) => {}
    case Spike(_, _) => {}
    case FireObj(f) => {f}
    case TrampolineObj(t) => {t}
    case RockHeadObj(r) => {r}
  }

  function Footprints(objects: seq<Entity>): set<object> {
    set i, o | 0 <= i < |objects| && o in Ref(objects[i]) :: o
  }

  function ViewOf(e: Entity): (v: View)
    reads Ref(e)
    ensures v.kind == KindOf(e)
  {
    match e
    case Block(rect, m) => View(BlockKind, Placed(Frame(BlockSheet(m), 0), rect.x, rect.y), rect)
    case Spike(rect, o) => View(SpikeKind, Placed(Frame(SpikeSheet(o), 0), rect.x, rect.y), rect)
    case FireObj(f) => View(FireKind, Placed(f.mask, f.rect.x, f.rect.y), f.rect)
    case TrampolineObj(t) => View(TrampolineKind, Placed(t.mask, t.rect.x, t.rect.y), t.rect)
    case RockHeadObj(r) => View(RockHeadKind, Placed(r.mask, r.rect.x, r.rect.y), r.rect)
  }

  function Views(objects: seq<Entity>): (vs: seq<View>)
    reads Footprints(objects)
    ensures |vs| == |objects|
    ensures forall i :: 0 <= i < |objects| ==> vs[i] == ViewOf(objects[i])
  {
    seq(|objects|, i requires 0 <= i < |objects| reads Footprints(objects) => ViewOf(objects[i]))
  }

  /** The per-object invariants of the hazards. */
  ghost predicate EntityValid(e: Entity)
    reads Ref(e)
  {
    match e
    case TrampolineObj(t) => t.Valid()
    case RockHeadObj(r) => r.Valid()
    case _ => true
  }

  /** No two entries of the list share a hazard, so stepping one leaves
      every other untouched. */
  predicate Distinct(objects: seq<Entity>) {
    forall i, j :: 0 <= i < j < |objects| ==> Ref(objects[i]) !! Ref(objects[j])
  }

  /** Animation delays of the hazards (ticks per frame). */
  const FIRE_DELAY: Count := 6
  const TRAMPOLINE_DELAY: Count := 6
  const ROCK_HEAD_DELAY: Count := 10
  /** Pixels a rock head rises per tick while it resets. */
  const RESET_STEP: int := 3

  /** Every field of a fire, as one value. */
  datatype FireState = FireState(rect: Rect, image: Frame, mask: Frame, animationCount: nat, animationName: FireAnim)

  /** One animation tick of a fire: the frame for the current count is
      shown and becomes the mask, the rectangle takes the image's size at
      the same corner, and the counter advances, wrapping once it has run
      past the last frame so that it stays within (frames + 1) * delay
      ticks. The animation itself is never switched. */
  function FireStep(s: FireState, assets: Assets): (r: FireState)
    ensures var sheet := FireSheet(s.animationName);
            r.image == Frame(sheet, FrameIndex(s.animationCount, FIRE_DELAY, assets.frames(sheet))) &&
            r.mask == r.image &&
            r.rect == Rect(s.rect.x, s.rect.y, assets.width(sheet), assets.height(sheet)) &&
            r.animationCount == (if (s.animationCount + 1) / FIRE_DELAY > assets.frames(sheet) then 0
                                 else s.animationCount + 1) &&
            r.animationCount / FIRE_DELAY <= assets.frames(sheet)
    ensures r.animationName == s.animationName
  {
    var sheet := FireSheet(s.animationName);
    var n := assets.frames(sheet);
    var image := Frame(sheet, FrameIndex(s.animationCount, FIRE_DELAY, n));
    var count := if (s.animationCount + 1) / FIRE_DELAY > n then 0 else s.animationCount + 1;
    FireState(Rect(s.rect.x, s.rect.y, assets.width(sheet), assets.height(sheet)), image, image, count, s.animationName)
  }

  /** An animated fire trap that damages on contact. */
  class Fire {
    var rect: Rect
    var image: Frame
    var mask: Frame
    var animationCount: nat
    var animationName: FireAnim

    constructor (x: int, y: int, width: nat, height: nat)
      ensures rect == Rect(x, y, width, height)
      ensures image == Frame(FireSheet(FireOn), 0) && mask == image
      ensures animationCount == 0 && animationName == FireOn
    {
      rect := Rect(x, y, width, height);
      image := Frame(FireSheet(FireOn), 0);
      mask := image;
      animationCount := 0;
      animationName := FireOn;
    }

    method On()
      modifies this
      ensures animationName == FireOn
      ensures rect == old(rect) && image == old(image) && mask == old(mask) && animationCount == old(animationCount)
    {
      animationName := FireOn;
    }

    method Off()
      modifies this
      ensures animationName == FireOff
      ensures rect == old(rect) && image == old(image) && mask == old(mask) && animationCount == old(animationCount)
    {
      animationName := FireOff;
    }

    /** The fields, as one value. */
    function State(): FireState
      reads this
    {
      FireState(rect, image, mask, animationCount, animationName)
    }

    /** Shows the next frame, as `FireStep` describes. */
    method Loop(fps: nat, assets: Assets)
      modifies this
      ensures State() == FireStep(old(State()), assets)
    {
      var sheet := FireSheet(animationName);
      var n := assets.frames(sheet);
      image := Frame(sheet, FrameIndex(animationCount, FIRE_DELAY, n));
      animationCount := animationCount + 1;
      rect := Rect(rect.x, rect.y, assets.width(sheet), assets.height(sheet));
      mask := image;
      if animationCount / FIRE_DELAY > n {
        animationCount := 0;
      }
    }
  }

  /** Every field of a trampoline, as one value. */
  datatype TrampolineState = TrampolineState(rect: Rect, image: Frame, mask: Frame, animationCount: nat,
                                             animationName: TrampolineAnim, jumpCount: nat)

  /** The hold timer only runs in the jump animation. */
  predicate Holding(s: TrampolineState) {
    s.animationName == TrampolineIdle ==> s.jumpCount == 0
  }

  /** A bounce on a trampoline: an idle one starts its jump animation from
      the first frame; one already jumping is left as it is. */
  function Pressed(s: TrampolineState): (r: TrampolineState)
    ensures Holding(s) ==> Holding(r)
    ensures s.animationName == TrampolineIdle ==> r.animationName == TrampolineJump && r.animationCount == 0
    ensures s.animationName == TrampolineJump ==> r == s
    ensures r == s.(animationName := r.animationName, animationCount := r.animationCount)
  {
    if s.animationName == TrampolineIdle then s.(animationName := TrampolineJump, animationCount := 0) else s
  }

  /** Pressing twice is pressing once. */
  lemma PressedIdempotent(s: TrampolineState)
    ensures Pressed(Pressed(s)) == Pressed(s)
  {
  }

  /** One animation tick of a trampoline: the frame for the current count is
      shown and becomes the mask, the rectangle takes the image's size, the
      counter advances and wraps after the last frame; in the jump animation
      the hold timer counts, and once it exceeds half a second of ticks the
      trampoline is idle again. */
  function TrampolineStep(s: TrampolineState, fps: nat, assets: Assets): (r: TrampolineState)
    ensures Holding(s) ==> Holding(r)
    ensures var sheet := TrampolineSheet(s.animationName);
            r.image == Frame(sheet, FrameIndex(s.animationCount, TRAMPOLINE_DELAY, assets.frames(sheet))) &&
            r.mask == r.image &&
            r.rect == Rect(s.rect.x, s.rect.y, assets.width(sheet), assets.height(sheet)) &&
            r.animationCount == (if (s.animationCount + 1) / TRAMPOLINE_DELAY > assets.frames(sheet) then 0
                                 else s.animationCount + 1)
    ensures s.animationName == TrampolineIdle ==> r.animationName == TrampolineIdle && r.jumpCount == s.jumpCount
    ensures s.animationName == TrampolineJump ==>
              if (s.jumpCount + 1) as real > fps as real * 0.5
              then r.animationName == TrampolineIdle && r.jumpCount == 0
              else r.animationName == TrampolineJump && r.jumpCount == s.jumpCount + 1
    ensures r.animationName == TrampolineJump ==> r.jumpCount as real <= fps as real * 0.5
  {
    var sheet := TrampolineSheet(s.animationName);
    var n := assets.frames(sheet);
    var image := Frame(sheet, FrameIndex(s.animationCount, TRAMPOLINE_DELAY, n));
    var count := if (s.animationCount + 1) / TRAMPOLINE_DELAY > n then 0 else s.animationCount + 1;
    var drawn := s.(rect := Rect(s.rect.x, s.rect.y, assets.width(sheet), assets.height(sheet)),
                    image := image, mask := image, animationCount := count);
    if s.animationName == TrampolineJump then
      if (s.jumpCount + 1) as real > fps as real * 0.5 then drawn.(animationName := TrampolineIdle, jumpCount := 0)
      else drawn.(jumpCount := s.jumpCount + 1)
    else drawn
  }

  /** A trampoline: idle until the player bounces on it, then plays its jump
      animation for half a second of ticks. */
  class Trampoline {
    var rect: Rect
    var image: Frame
    var mask: Frame
    var animationCount: nat
    var animationName: TrampolineAnim
    /** Ticks spent in the jump animation. */
    var jumpCount: nat

    /** The hold timer only runs in the jump animation. */
    ghost predicate Valid()
      reads this
    {
      Holding(State())
    }

    constructor (x: int, y: int, width: nat, height: nat)
      ensures Valid()
      ensures rect == Rect(x, y, width, height)
      ensures image == Frame(TrampolineSheet(TrampolineIdle), 0) && mask == image
      ensures animationCount == 0 && animationName == TrampolineIdle && jumpCount == 0
    {
      rect := Rect(x, y, width, height);
      image := Frame(TrampolineSheet(TrampolineIdle), 0);
      mask := image;
      animationCount := 0;
      animationName := TrampolineIdle;
      jumpCount := 0;
    }

    /** The fields, as one value. */
    function State(): TrampolineState
      reads this
    {
      TrampolineState(rect, image, mask, animationCount, animationName, jumpCount)
    }

    /** Starts the jump animation, as `Pressed` describes. */
    method JumpPlayer()
      requires Valid()
      modifies this
      ensures Valid()
      ensures State() == Pressed(old(State()))
    {
      if animationName == TrampolineIdle {
        animationName := TrampolineJump;
        animationCount := 0;
      }
    }

    /** Shows the next frame and counts the hold time, as `TrampolineStep` describes. */
    method Loop(fps: nat, assets: Assets)
      requires Valid()
      modifies this
      ensures Valid()
      ensures State() == TrampolineStep(old(State()), fps, assets)
    {
      var sheet := TrampolineSheet(animationName);
      var n := assets.frames(sheet);
      image := Frame(sheet, FrameIndex(animationCount, TRAMPOLINE_DELAY, n));
      animationCount := animationCount + 1;
      rect := Rect(rect.x, rect.y, assets.width(sheet), assets.height(sheet));
      mask := image;
      if animationCount / TRAMPOLINE_DELAY > n {
        animationCount := 0;
      }
      if animationName == TrampolineJump {
        jumpCount := jumpCount + 1;
        if jumpCount as real > fps as real * 0.5 {
          animationName := TrampolineIdle;
          jumpCount := 0;
        }
      }
    }
  }

  /** The phases of a rock head trap. */
  datatype Phase = Idle | Falling | Smashed | Resetting

  /** The phase that follows `p` in the trap's cycle: idle, falling,
      smashed, resetting, and idle again. */
  function NextPhase(p: Phase): (r: Phase)
    ensures r != p
    ensures p == Resetting <==> r == Phase.Idle
  {
    match p
    case Idle => Falling
    case Falling => Smashed
    case Smashed => Resetting
    case Resetting => Phase.Idle
  }

  /** The cycle has four phases: every phase comes back after four
      advances and not before. */
  lemma PhaseCycle(p: Phase)
    ensures NextPhase(NextPhase(NextPhase(NextPhase(p)))) == p
    ensures NextPhase(NextPhase(p)) != p && NextPhase(NextPhase(NextPhase(p))) != p
  {
  }

  /** Height at which a rock head that is resetting at height `y` comes back
      to rest: it rises by RESET_STEP while it is below `originalY`. */
  function RestingHeight(y: int, originalY: int): (r: int)
    ensures r <= originalY
    ensures y <= originalY ==> r == y
    ensures y > originalY - RESET_STEP ==> r > originalY - RESET_STEP
    ensures (y - r) % RESET_STEP == 0
    decreases y - originalY
  {
    if y > originalY then RestingHeight(y - RESET_STEP, originalY) else y
  }

  /** Objects a falling rock head can land on: anything but fire, rock heads and itself. */
  predicate LandsOn(v: View) {
    v.kind != FireKind && v.kind != RockHeadKind
  }

  /** Index of the first object a rock head whose mask is placed as `probe`
      would land on. */
  function Landing(views: seq<View>, probe: Placed, assets: Assets): (r: Option<nat>)
    ensures r.Some? ==> r.value < |views| && LandsOn(views[r.value]) && assets.overlap(probe, views[r.value].placed)
    ensures r.Some? ==> forall j :: 0 <= j < r.value ==> !(LandsOn(views[j]) && assets.overlap(probe, views[j].placed))
    ensures r.None? <==> forall j :: 0 <= j < |views| ==> !(LandsOn(views[j]) && assets.overlap(probe, views[j].placed))
  {
    First(views, v => LandsOn(v) && assets.overlap(probe, v.placed))
  }

  /** The parts of a rock head that its phase step changes. */
  datatype Trap = Trap(rect: Rect, yVel: int, state: Phase, resetTimer: nat, triggerRect: Rect,
                       animationName: RockHeadAnim)

  /** A rock head's fixed parameters: its starting height, its acceleration
      while falling and the number of ticks it stays smashed. */
  datatype TrapSetting = TrapSetting(originalY: int, fallSpeed: int, resetTime: real)

  /** The outcome of a phase step: the trap and the player. */
  datatype Stepped = Stepped(trap: Trap, player: PlayerSnapshot)

  /** Only a falling trap moves; an idle trap is never below its start. */
  predicate TrapValid(t: Trap, originalY: int) {
    (t.state != Falling ==> t.yVel == 0) && (t.state == Phase.Idle ==> t.rect.y <= originalY)
  }

  /** One phase step of a rock head whose mask is `mask`, against a player
      `p` and objects seen as `views`.
      Idle: the trigger region moves under the trap; the player's rectangle
      entering it starts the fall.
      Falling: move by the fall velocity, accelerate, hurt the player when the
      trap is moving down and the masks meet, and rest on top of the first
      object landed on, which ends the fall.
      Smashed: count a tick; once the reset time is reached, start resetting.
      Resetting: stop, and rise by RESET_STEP until back at the start height,
      then be idle.
      Only a fall touches the player, and only by a hit; the phase only ever
      advances to the next one; the trap never moves sideways or resizes. */
  function PhaseStep(t: Trap, mask: Frame, c: TrapSetting, p: PlayerSnapshot, views: seq<View>, assets: Assets): (r: Stepped)
    requires p.mask.Some?
    ensures r.trap.state == t.state || r.trap.state == NextPhase(t.state)
    ensures r.trap.rect.x == t.rect.x && r.trap.rect.w == t.rect.w && r.trap.rect.h == t.rect.h
    ensures TrapValid(t, c.originalY) ==> TrapValid(r.trap, c.originalY)
    ensures r.player == p || (t.state == Falling && r.player == Hurt(p))
  {
    match t.state
    case Idle =>
      var trigger := t.triggerRect.(x := t.rect.x, y := t.rect.Bottom());
      Stepped(t.(triggerRect := trigger, state := if p.rect.Colliderect(trigger) then Falling else Phase.Idle), p)
    case Falling =>
      var moved := t.rect.(y := t.rect.y + t.yVel);
      var speed := t.yVel + c.fallSpeed;
      var probe := Placed(mask, moved.x, moved.y);
      var hurt := if assets.overlap(probe, Placed(p.mask.value, p.rect.x, p.rect.y)) && speed > 0 then Hurt(p) else p;
      var floor := Landing(views, probe, assets);
      if speed > 0 && floor.Some? then
        Stepped(t.(rect := moved.WithBottom(views[floor.value].rect.Top()), yVel := 0, state := Smashed,
                   animationName := BottomHit), hurt)
      else
        Stepped(t.(rect := moved, yVel := speed), hurt)
    case Smashed =>
      var timer := t.resetTimer + 1;
      Stepped(t.(resetTimer := timer, state := if timer as real >= c.resetTime then Resetting else Smashed), p)
    case Resetting =>
      var stopped := t.(yVel := 0, resetTimer := 0, animationName := RockHeadIdle);
      if t.rect.y > c.originalY then Stepped(stopped.(rect := t.rect.(y := t.rect.y - RESET_STEP)), p)
      else Stepped(stopped.(state := Phase.Idle), p)
  }

  /** The trap after `n` phase steps against the same player and objects. */
  function PhaseSteps(t: Trap, mask: Frame, c: TrapSetting, p: PlayerSnapshot, views: seq<View>, assets: Assets,
                      n: nat): Trap
    requires p.mask.Some?
    decreases n
  {
    if n == 0 then t else PhaseSteps(PhaseStep(t, mask, c, p, views, assets).trap, mask, c, p, views, assets, n - 1)
  }

  /** A resetting trap rises for exactly as many ticks as it is RESET_STEP
      steps below its resting height, and is idle at that height one tick
      later, whatever the player and the objects do. */
  lemma {:induction false} RiseToRest(t: Trap, mask: Frame, c: TrapSetting, p: PlayerSnapshot, views: seq<View>,
                                      assets: Assets)
    requires p.mask.Some? && t.state == Resetting
    decreases t.rect.y - c.originalY
    ensures var rest := RestingHeight(t.rect.y, c.originalY);
            var k := (t.rect.y - rest) / RESET_STEP;
            var before := PhaseSteps(t, mask, c, p, views, assets, k);
            var after := PhaseSteps(t, mask, c, p, views, assets, k + 1);
            before.state == Resetting && before.rect.y == rest &&
            after.state == Phase.Idle && after.rect.y == rest && after.yVel == 0 && after.resetTimer == 0
  {
    var rest := RestingHeight(t.rect.y, c.originalY);
    if t.rect.y > c.originalY {
      var next := PhaseStep(t, mask, c, p, views, assets).trap;
      assert next.state == Resetting && next.rect.y == t.rect.y - RESET_STEP;
      assert RestingHeight(next.rect.y, c.originalY) == rest;
      var k := (t.rect.y - rest) / RESET_STEP;
      assert k >= 1 && (next.rect.y - rest) / RESET_STEP == k - 1;
      RiseToRest(next, mask, c, p, views, assets);
    }
  }

  /** A smashed trap stays smashed, in place, while its timer is below the
      reset time, and starts resetting on the tick the timer reaches it. */
  lemma {:induction false} SmashedWaits(t: Trap, mask: Frame, c: TrapSetting, p: PlayerSnapshot, views: seq<View>,
                                        assets: Assets, n: nat)
    requires p.mask.Some? && t.state == Smashed && (t.resetTimer + n) as real < c.resetTime
    decreases n
    ensures var u := PhaseSteps(t, mask, c, p, views, assets, n);
            u.state == Smashed && u.resetTimer == t.resetTimer + n && u.rect == t.rect && u.yVel == t.yVel
    ensures (t.resetTimer + n + 1) as real >= c.resetTime ==>
              PhaseSteps(t, mask, c, p, views, assets, n + 1).state == Resetting
  {
    if n > 0 {
      var next := PhaseStep(t, mask, c, p, views, assets).trap;
      assert next.state == Smashed && next.resetTimer == t.resetTimer + 1;
      SmashedWaits(next, mask, c, p, views, assets, n - 1);
    }
  }

  /** Every field of a rock head, as one value: what its phase step works
      on, its fixed parameters, and its animation. */
  datatype RockHeadState = RockHeadState(motion: Trap, setting: TrapSetting, image: Frame, mask: Frame,
                                         animationCount: nat)

  /** The outcome of a rock head's tick: the rock head and the player. */
  datatype Ticked = Ticked(rockHead: RockHeadState, player: PlayerSnapshot)

  /** One tick of a rock head against a player `p` and objects seen as
      `views`: the animation advances (wrapping after the last frame), the
      phase step runs with the mask of the previous tick, and the rectangle
      and mask are recomputed from the new image. Only a fall touches the
      player, and only by a hit; the phase only ever advances to the next
      one; the trap keeps its invariant and never moves sideways. */
  function RockHeadTick(s: RockHeadState, p: PlayerSnapshot, views: seq<View>, assets: Assets): (r: Ticked)
    requires p.mask.Some?
    ensures var sheet := RockHeadSheet(s.motion.animationName);
            var n := assets.frames(sheet);
            r.rockHead.image == Frame(sheet, FrameIndex(s.animationCount, ROCK_HEAD_DELAY, n)) &&
            r.rockHead.mask == r.rockHead.image &&
            r.rockHead.animationCount == (if (s.animationCount + 1) / ROCK_HEAD_DELAY >= n then 0
                                          else s.animationCount + 1) &&
            r.rockHead.motion.rect.w == assets.width(sheet) && r.rockHead.motion.rect.h == assets.height(sheet)
    ensures r.rockHead.setting == s.setting
    ensures r.rockHead.motion.state == s.motion.state || r.rockHead.motion.state == NextPhase(s.motion.state)
    ensures r.rockHead.motion.rect.x == s.motion.rect.x
    ensures TrapValid(s.motion, s.setting.originalY) ==> TrapValid(r.rockHead.motion, s.setting.originalY)
    ensures r.player == p || (s.motion.state == Falling && r.player == Hurt(p))
    ensures var stepped := PhaseStep(s.motion, s.mask, s.setting, p, views, assets);
            r.player == stepped.player &&
            r.rockHead.motion == stepped.trap.(rect := stepped.trap.rect.(w := r.rockHead.motion.rect.w,
                                                                         h := r.rockHead.motion.rect.h))
  {
    var sheet := RockHeadSheet(s.motion.animationName);
    var n := assets.frames(sheet);
    var image := Frame(sheet, FrameIndex(s.animationCount, ROCK_HEAD_DELAY, n));
    var count := if (s.animationCount + 1) / ROCK_HEAD_DELAY >= n then 0 else s.animationCount + 1;
    var stepped := PhaseStep(s.motion, s.mask, s.setting, p, views, assets);
    var t := stepped.trap;
    Ticked(RockHeadState(t.(rect := Rect(t.rect.x, t.rect.y, assets.width(sheet), assets.height(sheet))),
                         s.setting, image, image, count),
           stepped.player)
  }

  /** A crushing trap: waits until the player is below it, falls, stays
      smashed for a while, then rises back to its starting height. */
  class RockHead {
    var rect: Rect
    const originalY: int
    /** The image shown and the image the mask was last computed from; the
        mask catches up with the image at the end of each tick. */
    var image: Frame
    var mask: Frame
    var state: Phase
    const fallSpeed: int
    var yVel: int
    var resetTimer: nat
    const resetTime: real
    /** Region below the trap whose intrusion makes it fall. */
    var triggerRect: Rect
    var animationName: RockHeadAnim
    var animationCount: nat

    /** The state the phase step works on. */
    ghost function Motion(): Trap
      reads this
    {
      Trap(rect, yVel, state, resetTimer, triggerRect, animationName)
    }

    function Setting(): TrapSetting {
      TrapSetting(originalY, fallSpeed, resetTime)
    }

    /** The fields, as one value. */
    ghost function State(): RockHeadState
      reads this
    {
      RockHeadState(Motion(), Setting(), image, mask, animationCount)
    }

    ghost predicate Valid()
      reads this
    {
      TrapValid(Motion(), originalY)
    }

    constructor (x: int, y: int, width: nat, height: nat, fallSpeed: int, resetTime: real)
      ensures Valid()
      ensures rect == Rect(x, y, width, height) && originalY == y
      ensures image == Frame(RockHeadSheet(RockHeadIdle), 0) && mask == image
      ensures state == Phase.Idle && yVel == 0 && resetTimer == 0
      ensures this.fallSpeed == fallSpeed && this.resetTime == resetTime
      ensures triggerRect == Rect(x, y + height, width, height * 5)
      ensures animationName == RockHeadIdle && animationCount == 0
    {
      rect := Rect(x, y, width, height);
      originalY := y;
      image := Frame(RockHeadSheet(RockHeadIdle), 0);
      mask := image;
      state := Phase.Idle;
      this.fallSpeed := fallSpeed;
      yVel := 0;
      resetTimer := 0;
      this.resetTime := resetTime;
      triggerRect := Rect(x, y + height, width, height * 5);
      animationName := RockHeadIdle;
      animationCount := 0;
    }

    /** The trap's mask placed at its current position. */
    function Placement(): Placed
      reads this
    {
      Placed(mask, rect.x, rect.y)
    }

    /** While moving down, looks for the first object it can land on that its
        mask overlaps; if there is one, rests on top of it and stops. */
    method CheckCollisionWithStaticObjects(objects: seq<Entity>, assets: Assets) returns (landed: bool)
      modifies this`rect, this`yVel
      ensures var hit := Landing(old(Views(objects)), old(Placement()), assets);
              landed == (old(yVel) > 0 && hit.Some?) &&
              (landed ==> rect == old(rect).WithBottom(old(Views(objects))[hit.value].rect.Top()) && yVel == 0) &&
              (!landed ==> rect == old(rect) && yVel == old(yVel))
    {
      ghost var views := Views(objects);
      var i := 0;
      while i < |objects|
        invariant 0 <= i <= |objects|
        invariant rect == old(rect) && yVel == old(yVel)
        invariant old(yVel) > 0 ==> forall j :: 0 <= j < i ==> !(LandsOn(views[j]) && assets.overlap(Placement(), views[j].placed))
      {
        var obj := objects[i];
        assert views[i] == ViewOf(obj);
        if obj != RockHeadObj(this) && !obj.FireObj? && !obj.RockHeadObj? {
          if assets.overlap(Placement(), ViewOf(obj).placed) {
            if yVel > 0 {
              rect := rect.WithBottom(ViewOf(obj).rect.Top());
              yVel := 0;
              return true;
            }
          }
        }
        i := i + 1;
      }
      return false;
    }

    /** One tick of the trap: advance the animation, then act on the phase.
        Idle: the trigger region follows the trap and the player's rectangle
        entering it starts the fall. Falling: move by the fall velocity and
        accelerate; a moving-down trap whose mask meets the player's damages
        it; landing on an object ends the fall. Smashed: wait until the reset
        time has passed. Resetting: rise by RESET_STEP per tick until the
        starting height is reached, then be idle again. Finally the rectangle
        and the mask are recomputed from the image. */
    method Loop(fps: nat, objects: seq<Entity>, player: Player, assets: Assets, ghost views: seq<View>)
      requires Valid() && player.Valid() && player.mask.Some?
      requires views == Views(objects)
      modifies this, player
      ensures Valid() && player.Valid()
      ensures player.health + player.hitTimes == old(player.health + player.hitTimes)
      ensures player.health <= old(player.health)
      ensures player.sprite == old(player.sprite) && player.mask == old(player.mask)
      ensures player.hitCount == old(player.hitCount) && player.jumpCount == old(player.jumpCount)
      ensures Ticked(State(), player.Snapshot()) == RockHeadTick(old(State()), old(player.Snapshot()), views, assets)
    {
      Animate(assets);
      forall i | 0 <= i < |objects| ensures ViewOf(objects[i]) == views[i] {
      }
      assert Views(objects) == views;
      ghost var p := player.Snapshot();
      Act(objects, player, assets, views);
      assert player.Snapshot() == p || player.Snapshot() == Hurt(p);
      HurtKeepsCooldown(p);
      Update(assets);
      assert image.sheet == RockHeadSheet(old(animationName));
    }

    /** The phase step of Loop, between the animation and the update of the
        rectangle and mask. */
    method Act(objects: seq<Entity>, player: Player, assets: Assets, ghost views: seq<View>)
      requires Valid() && player.Valid() && player.mask.Some?
      requires views == Views(objects)
      modifies this`triggerRect, this`state, this`rect, this`yVel, this`animationName, this`resetTimer, player
      ensures Stepped(Motion(), player.Snapshot()) ==
              PhaseStep(old(Motion()), mask, Setting(), old(player.Snapshot()), views, assets)
    {
      match state {
      case Idle =>
        Watch(player);
      case Falling =>
        Fall(objects, player, assets, views);
      case Smashed =>
        Wait();
      case Resetting =>
        Rise();
      }
    }

    /** Shows the next frame of the current animation; the counter wraps after the last frame. */
    method Animate(assets: Assets)
      modifies this`image, this`animationCount
      ensures var sheet := RockHeadSheet(animationName);
              var n := assets.frames(sheet);
              image == Frame(sheet, FrameIndex(old(animationCount), ROCK_HEAD_DELAY, n)) &&
              animationCount == (if (old(animationCount) + 1) / ROCK_HEAD_DELAY >= n then 0
                                 else old(animationCount) + 1)
    {
      var sheet := RockHeadSheet(animationName);
      var n := assets.frames(sheet);
      image := Frame(sheet, FrameIndex(animationCount, ROCK_HEAD_DELAY, n));
      animationCount := animationCount + 1;
      if animationCount / ROCK_HEAD_DELAY >= n {
        animationCount := 0;
      }
    }

    /** The idle phase of Loop: the trigger region follows the trap, and the
        player entering it starts the fall. */
    method Watch(player: Player)
      requires state == Phase.Idle
      modifies this`triggerRect, this`state
      ensures triggerRect == old(triggerRect).(x := rect.x, y := rect.Bottom())
      ensures state == if player.rect.Colliderect(triggerRect) then Falling else Phase.Idle
    {
      triggerRect := triggerRect.(x := rect.x, y := rect.Bottom());
      if player.rect.Colliderect(triggerRect) {
        state := Falling;
      }
    }

    /** The smashed phase of Loop: count until the reset time has passed. */
    method Wait()
      requires state == Smashed
      modifies this`resetTimer, this`state
      ensures resetTimer == old(resetTimer) + 1
      ensures state == if resetTimer as real >= resetTime then Resetting else Smashed
    {
      resetTimer := resetTimer + 1;
      if resetTimer as real >= resetTime {
        state := Resetting;
      }
    }

    /** The resetting phase of Loop: rise towards the starting height; once
        there, the trap is idle again. */
    method Rise()
      requires state == Resetting
      modifies this`yVel, this`resetTimer, this`animationName, this`rect, this`state
      ensures yVel == 0 && resetTimer == 0 && animationName == RockHeadIdle
      ensures if old(rect.y) > originalY then state == Resetting && rect == old(rect).(y := old(rect.y) - RESET_STEP)
              else state == Phase.Idle && rect == old(rect)
    {
      yVel := 0;
      resetTimer := 0;
      animationName := RockHeadIdle;
      if rect.y > originalY {
        rect := rect.(y := rect.y - RESET_STEP);
      } else {
        state := Phase.Idle;
      }
    }

    /** The falling phase of Loop: move, accelerate, damage the player when the
        moving-down masks meet, and end the fall on the first object landed on.
        `views` is what the collision tests see of `objects` at the start. */
    method Fall(objects: seq<Entity>, player: Player, assets: Assets, ghost views: seq<View>)
      requires state == Falling && player.Valid() && player.mask.Some?
      requires views == Views(objects)
      modifies this`rect, this`yVel, this`state, this`animationName, player
      ensures player.Valid()
      ensures player.health + player.hitTimes == old(player.health + player.hitTimes)
      ensures var movedY := old(rect.y) + old(yVel);
              var speed := old(yVel) + fallSpeed;
              var probe := Placed(old(mask), old(rect.x), movedY);
              var crushes := assets.overlap(probe, old(player.Placement())) && speed > 0;
              var floor := Landing(views, probe, assets);
              player.Snapshot() == (if crushes then Hurt(old(player.Snapshot())) else old(player.Snapshot())) &&
              if speed > 0 && floor.Some? then
                state == Smashed && yVel == 0 && animationName == BottomHit &&
                rect == old(rect).(y := views[floor.value].rect.Top() - old(rect.h))
              else
                state == Falling && yVel == speed && rect == old(rect).(y := movedY) && animationName == old(animationName)
    {
      Drop(player, assets);
      ghost var probe := Placed(old(mask), old(rect.x), old(rect.y) + old(yVel));
      assert Placement() == probe;
      ghost var q := player.Snapshot();
      assert q == if assets.overlap(probe, old(player.Placement())) && old(yVel) + fallSpeed > 0
                  then Hurt(old(player.Snapshot())) else old(player.Snapshot());
      forall i | 0 <= i < |objects| && !objects[i].RockHeadObj?
        ensures ViewOf(objects[i]) == views[i]
      {
      }
      Land(objects, assets, views);
      assert player.Snapshot() == q;
    }

    /** Lands the moved trap, judging by `views`, which agree with the
        objects' current views on every object that is not a rock head. */
    method Land(objects: seq<Entity>, assets: Assets, ghost views: seq<View>)
      requires state == Falling && |views| == |objects|
      requires forall i :: 0 <= i < |objects| && !objects[i].RockHeadObj? ==> ViewOf(objects[i]) == views[i]
      requires forall i :: 0 <= i < |objects| ==> views[i].kind == KindOf(objects[i])
      modifies this`rect, this`yVel, this`state, this`animationName
      ensures var floor := Landing(views, old(Placement()), assets);
              if old(yVel) > 0 && floor.Some? then
                state == Smashed && yVel == 0 && animationName == BottomHit &&
                rect == old(rect).(y := views[floor.value].rect.Top() - old(rect.h))
              else
                state == Falling && yVel == old(yVel) && rect == old(rect) && animationName == old(animationName)
    {
      ghost var now := Views(objects);
      assert forall i :: 0 <= i < |objects| ==>
        now[i] == views[i] || (now[i].kind == RockHeadKind && views[i].kind == RockHeadKind);
      ghost var floor := Landing(views, Placement(), assets);
      LandingIgnoresRockHeads(now, views, Placement(), assets);
      if floor.Some? {
        assert now[floor.value] == views[floor.value];
      }
      Settle(objects, assets, views);
    }

    /** The end of a fall step: moving down onto an object it can land on,
        the trap rests on top of it and is smashed. `views` are the objects
        as seen before the step, which agree with the current ones on every
        object the trap can land on. */
    method Settle(objects: seq<Entity>, assets: Assets, ghost views: seq<View>)
      requires state == Falling
      requires Landing(Views(objects), Placement(), assets) == Landing(views, Placement(), assets)
      requires var floor := Landing(views, Placement(), assets);
               floor.Some? ==> floor.value < |objects| && Views(objects)[floor.value] == views[floor.value]
      modifies this`rect, this`yVel, this`state, this`animationName
      ensures var floor := Landing(views, old(Placement()), assets);
              if old(yVel) > 0 && floor.Some? then
                state == Smashed && yVel == 0 && animationName == BottomHit &&
                rect == old(rect).(y := views[floor.value].rect.Top() - old(rect.h))
              else
                state == Falling && yVel == old(yVel) && rect == old(rect) && animationName == old(animationName)
    {
      var smashed := CheckCollisionWithStaticObjects(objects, assets);
      if smashed {
        state := Smashed;
        yVel := 0;
        animationName := BottomHit;
      }
    }

    /** Moves by the fall velocity, accelerates, and damages the player when
        the trap is moving down and its mask meets the player's. */
    method Drop(player: Player, assets: Assets)
      requires player.Valid() && player.mask.Some?
      modifies this`rect, this`yVel, player
      ensures player.Valid()
      ensures player.health + player.hitTimes == old(player.health + player.hitTimes)
      ensures rect == old(rect).(y := old(rect.y) + old(yVel)) && yVel == old(yVel) + fallSpeed
      ensures player.Snapshot() == if assets.overlap(Placement(), old(player.Placement())) && yVel > 0
                                   then Hurt(old(player.Snapshot())) else old(player.Snapshot())
    {
      rect := rect.(y := rect.y + yVel);
      yVel := yVel + fallSpeed;
      if assets.overlap(Placement(), player.Placement()) && yVel > 0 {
        player.MakeHit();
      }
    }

    /** Recomputes the rectangle (same top-left corner, size of the image) and
        the mask from the current image. */
    method Update(assets: Assets)
      modifies this`rect, this`mask
      ensures rect == Rect(old(rect.x), old(rect.y), assets.width(image.sheet), assets.height(image.sheet))
      ensures mask == image
    {
      rect := Rect(rect.x, rect.y, assets.width(image.sheet), assets.height(image.sheet));
      mask := image;
    }
  }

  /** The first object a rock head lands on does not depend on where the rock
      heads (including itself) are. */
  lemma LandingIgnoresRockHeads(s: seq<View>, t: seq<View>, probe: Placed, assets: Assets)
    requires |s| == |t|
    requires forall i :: 0 <= i < |s| ==> s[i] == t[i] || (s[i].kind == RockHeadKind && t[i].kind == RockHeadKind)
    ensures Landing(s, probe, assets) == Landing(t, probe, assets)
  {
    var p := (v: View) => LandsOn(v) && assets.overlap(probe, v.placed);
    forall i | 0 <= i < |s| ensures p(s[i]) == p(t[i]) {
      if s[i] != t[i] {
        assert !LandsOn(s[i]) && !LandsOn(t[i]);
      }
    }
    FirstAgrees(s, t, p, p);
  }

  /** Two sequences on which two predicates take the same values, position by
      position, have the same first match. */
  lemma {:induction false} FirstAgrees<S, T>(s: seq<S>, t: seq<T>, p: S -> bool, q: T -> bool)
    requires |s| == |t|
    requires forall i :: 0 <= i < |s| ==> p(s[i]) == q(t[i])
    ensures First(s, p) == First(t, q)
  {
    if |s| > 0 && !p(s[0]) {
      FirstAgrees(s[1..], t[1..], p, q);
    }
  }

  /** The state of an object: blocks and spikes have none that changes. */
  datatype EntityState =
    | Inert
    | FireIs(fire: FireState)
    | TrampolineIs(trampoline: TrampolineState)
    | RockHeadIs(rockHead: RockHeadState)

  ghost function StateOf(e: Entity): EntityState
    reads Ref(e)
  {
    match e
    case FireObj(f) => FireIs(f.State())
    case TrampolineObj(t) => TrampolineIs(t.State())
    case RockHeadObj(r) => RockHeadIs(r.State())
    case _ => Inert
  }

  ghost function States(objects: seq<Entity>): (s: seq<EntityState>)
    reads Footprints(objects)
    ensures |s| == |objects| && forall i :: 0 <= i < |objects| ==> s[i] == StateOf(objects[i])
  {
    seq(|objects|, i requires 0 <= i < |objects| reads Footprints(objects) => StateOf(objects[i]))
  }

  /** Object state `b` is one tick of `a`: a fire or trampoline animation
      step, or a rock head tick against some player with a mask and some
      view of the objects. */
  ghost predicate Advanced(a: EntityState, b: EntityState, fps: nat, assets: Assets) {
    match a
    case Inert => b == Inert
    case FireIs(f) => b == FireIs(FireStep(f, assets))
    case TrampolineIs(t) => b == TrampolineIs(TrampolineStep(t, fps, assets))
    case RockHeadIs(r) =>
      exists p: PlayerSnapshot, vs: seq<View> :: p.mask.Some? && b == RockHeadIs(RockHeadTick(r, p, vs, assets).rockHead)
  }

  /** The state after a bounce when `pressed`: only a trampoline changes. */
  function PressedIf(a: EntityState, pressed: bool): EntityState {
    if pressed && a.TrampolineIs? then TrampolineIs(Pressed(a.trampoline)) else a
  }
}
