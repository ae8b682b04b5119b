/** The game: a level is scanned into objects and a starting cell, then
    every frame handles the input events, steps the player, resolves its
    movement against the objects, steps the hazards and moves the camera,
    until the window is closed or the player has no health left. */
module Game {
  import opened Wrappers
  import opened Geometry
  import opened Sprites
  import opened PlayerModel
  import opened World
  import opened Collision
  import opened Camera
  import opened Level

  /** Event type and key codes, with pygame 2's values. */
  const KEYDOWN: int := 768
  const K_SPACE: int := 32
  const K_W: int := 119
  const K_UP: int := 1073741906

  /** An input event: a request to close the window, a key press with its
      key code, or anything else. */
  datatype Event = Quit | KeyDown(key: int) | Other

  /** The input of one frame: its events and the arrow keys held down. */
  datatype Input = Input(events: seq<Event>, keys: Keys)

  /** The jump test of the event loop as written: the key is compared with
      space, but the event type (not the key) with the up arrow and "w". */
  predicate JumpKeyAsWritten(eventType: int, key: int) {
    key == K_SPACE || eventType == K_UP || eventType == K_W
  }

  /** As written, a key press makes the player jump only when it is space. */
  lemma OnlySpaceJumpsAsWritten(key: int)
    ensures JumpKeyAsWritten(KEYDOWN, key) <==> key == K_SPACE
    ensures !JumpKeyAsWritten(KEYDOWN, K_UP) && !JumpKeyAsWritten(KEYDOWN, K_W)
  {
  }

  /** The jump keys: space, the up arrow and "w". */
  predicate IsJumpKey(key: int) {
    key == K_SPACE || key == K_UP || key == K_W
  }

  /** Which jump test the event loop applies to a key press: the one as
      written, or the corrected one that accepts every jump key. */
  datatype JumpTest = AsWritten | Corrected

  predicate Jumps(test: JumpTest, key: int) {
    match test
    case AsWritten => JumpKeyAsWritten(KEYDOWN, key)
    case Corrected => IsJumpKey(key)
  }

  /** The frame's events contain a request to close the window. */
  predicate Quits(events: seq<Event>) {
    exists i :: 0 <= i < |events| && events[i].Quit?
  }

  /** The player after a frame's events under jump test `test`: each jump
      key press while a jump is left makes the player jump; nothing after a
      close request counts. The events change only the jump state, never use
      more than two jumps and never take one back. */
  function AfterEvents(s: PlayerSnapshot, events: seq<Event>, test: JumpTest): (t: PlayerSnapshot)
    ensures s.jumpCount <= 2 ==> t.jumpCount <= 2
    ensures t == s.(yVel := t.yVel, animationCount := t.animationCount,
                    jumpCount := t.jumpCount, fallCount := t.fallCount)
    ensures t.jumpCount >= s.jumpCount
    decreases |events|
  {
    if |events| == 0 || events[0].Quit? then s
    else
      var next := if events[0].KeyDown? && Jumps(test, events[0].key) && s.jumpCount < 2 then Leap(s) else s;
      AfterEvents(next, events[1..], test)
  }

  /** With the corrected test, each of the three jump keys makes a player
      with a jump left jump. */
  lemma JumpKeysJump(s: PlayerSnapshot)
    requires s.jumpCount < 2
    ensures AfterEvents(s, [KeyDown(K_UP)], Corrected) == Leap(s)
    ensures AfterEvents(s, [KeyDown(K_W)], Corrected) == Leap(s)
    ensures AfterEvents(s, [KeyDown(K_SPACE)], Corrected) == Leap(s)
  {
    assert [KeyDown(K_UP)][1..] == [];
    assert [KeyDown(K_W)][1..] == [];
    assert [KeyDown(K_SPACE)][1..] == [];
  }

  /** With the test as written, pressing the up arrow or "w" leaves a player
      with a jump left where it is; only space jumps. */
  lemma ArrowAndWIgnoredAsWritten(s: PlayerSnapshot)
    requires s.jumpCount < 2
    ensures AfterEvents(s, [KeyDown(K_UP)], AsWritten) == s
    ensures AfterEvents(s, [KeyDown(K_W)], AsWritten) == s
    ensures AfterEvents(s, [KeyDown(K_SPACE)], AsWritten) == Leap(s)
  {
    assert [KeyDown(K_UP)][1..] == [];
    assert [KeyDown(K_W)][1..] == [];
    assert [KeyDown(K_SPACE)][1..] == [];
  }

  /** Events after a close request are never handled. */
  lemma {:induction false} IgnoredAfterQuit(s: PlayerSnapshot, before: seq<Event>, after: seq<Event>, test: JumpTest)
    decreases |before|
    ensures AfterEvents(s, before + [Quit] + after, test) == AfterEvents(s, before, test)
  {
    var all := before + [Quit] + after;
    if |before| > 0 && !before[0].Quit? {
      assert all[0] == before[0];
      assert all[1..] == before[1..] + [Quit] + after;
      var next := if before[0].KeyDown? && Jumps(test, before[0].key) && s.jumpCount < 2 then Leap(s) else s;
      IgnoredAfterQuit(next, before[1..], after, test);
    } else {
      assert all[0].Quit?;
    }
  }

  /** Every trampoline among the objects belongs to their footprint. */
  lemma TrampolinesInFootprints(objects: seq<Entity>)
    ensures Trampolines(objects) <= Footprints(objects)
  {
    forall t | t in Trampolines(objects) ensures t in Footprints(objects) {
      var i :| 0 <= i < |objects| && objects[i].TrampolineObj? && objects[i].trampoline == t;
      assert t in Ref(objects[i]);
    }
  }

  /** What a level character creates, as it is right after creation: a
      block or spike value, a burning fire, an idle trampoline, or an idle
      rock head at rest at its starting height that falls one pixel faster
      every tick and waits half a second after a smash. */
  ghost predicate Creates(e: Entity, s: Spawn)
    reads Ref(e)
  {
    match s
    case BlockSpawn(rect, m) => e == Block(rect, m)
    case SpikeSpawn(rect, o) => e == Spike(rect, o)
    case FireSpawn(rect) =>
      e.FireObj? && e.fire.rect == rect && e.fire.animationName == FireOn && e.fire.animationCount == 0
    case TrampolineSpawn(rect) =>
      e.TrampolineObj? && e.trampoline.rect == rect &&
      e.trampoline.animationName == TrampolineIdle && e.trampoline.animationCount == 0 && e.trampoline.jumpCount == 0
    case RockHeadSpawn(rect) =>
      e.RockHeadObj? && e.rockHead.rect == rect && e.rockHead.state == Phase.Idle && e.rockHead.yVel == 0 &&
      e.rockHead.resetTimer == 0 && e.rockHead.originalY == rect.y && e.rockHead.fallSpeed == 1 &&
      e.rockHead.resetTime == FPS as real * 0.5
  }

  /** Creating a spawned object establishes its invariant. */
  lemma CreatedValid(e: Entity, s: Spawn)
    requires Creates(e, s)
    ensures EntityValid(e)
  {
  }

  /** Creates the object one spawn record describes; the fire is lit. */
  method Create(s: Spawn) returns (e: Entity)
    ensures Creates(e, s) && EntityValid(e)
    ensures fresh(Ref(e))
  {
    match s {
      case BlockSpawn(rect, m) =>
        e := Block(rect, m);
      case SpikeSpawn(rect, o) =>
        e := Spike(rect, o);
      case FireSpawn(rect) =>
        var f := new Fire(rect.x, rect.y, rect.w, rect.h);
        f.On();
        e := FireObj(f);
      case TrampolineSpawn(rect) =>
        var t := new Trampoline(rect.x, rect.y, rect.w, rect.h);
        e := TrampolineObj(t);
      case RockHeadSpawn(rect) =>
        var r := new RockHead(rect.x, rect.y, rect.w, rect.h, 1, FPS as real * 0.5);
        e := RockHeadObj(r);
    }
    CreatedValid(e, s);
  }

  /** Appending an entry that shares no hazard with the list keeps the
      list free of shared hazards and adds the entry's hazard to the
      footprint. */
  lemma DistinctAppend(objects: seq<Entity>, e: Entity)
    requires Distinct(objects) && Ref(e) !! Footprints(objects)
    ensures Distinct(objects + [e])
    ensures Footprints(objects + [e]) == Footprints(objects) + Ref(e)
  {
    var all := objects + [e];
    assert forall j :: 0 <= j < |objects| ==> all[j] == objects[j];
    assert all[|objects|] == e;
    forall j | 0 <= j < |objects| ensures Ref(objects[j]) !! Ref(e) {
      assert Ref(objects[j]) <= Footprints(objects);
    }
  }

  /** One step of `Populate`: appends the object `s` describes to objects
      that `made` describes. */
  method Extend(objects: seq<Entity>, made: seq<Spawn>, s: Spawn) returns (all: seq<Entity>)
    requires |objects| == |made| && Distinct(objects)
    requires forall j :: 0 <= j < |objects| ==> Creates(objects[j], made[j]) && EntityValid(objects[j])
    ensures |all| == |objects| + 1 && all[..|objects|] == objects && Distinct(all)
    ensures forall j :: 0 <= j < |all| ==> Creates(all[j], (made + [s])[j]) && EntityValid(all[j])
    ensures fresh(Ref(all[|objects|])) && Footprints(all) == Footprints(objects) + Ref(all[|objects|])
  {
    var e := Create(s);
    DistinctAppend(objects, e);
    all := objects + [e];
    assert all[..|objects|] == objects;
  }

  /** Creates the level's objects, one new object per spawn record, in order,
      none shared between two entries. */
  method Populate(spawns: seq<Spawn>) returns (objects: seq<Entity>)
    ensures |objects| == |spawns|
    ensures forall i :: 0 <= i < |spawns| ==> Creates(objects[i], spawns[i]) && EntityValid(objects[i])
    ensures Distinct(objects)
    ensures fresh(Footprints(objects))
  {
    objects := [];
    var i := 0;
    while i < |spawns|
      invariant 0 <= i <= |spawns| && |objects| == i
      invariant forall j :: 0 <= j < i ==> Creates(objects[j], spawns[j]) && EntityValid(objects[j])
      invariant Distinct(objects)
      invariant fresh(Footprints(objects))
    {
      objects := Extend(objects, spawns[..i], spawns[i]);
      assert spawns[..i] + [spawns[i]] == spawns[..i + 1];
      i := i + 1;
    }
  }

  /** The end of a simulation step whose movement resolved as `r`: the
      player is in the resolved state, possibly followed by one rock head
      hit; the trampoline reacted to, if any, is pressed, and then every
      object in `before` advances one tick to its state in `after`. */
  ghost predicate Outcome(r: Resolution, before: seq<EntityState>, assets: Assets, q: PlayerSnapshot,
                          after: seq<EntityState>)
  {
    (q == r.state || q == Hurt(r.state)) && |after| == |before| &&
    forall i :: 0 <= i < |before| ==> Advanced(PressedIf(before[i], r.target == Some(i)), after[i], FPS, assets)
  }

  /** The movement and reaction of a player in state `p` among objects in
      states `before`, seen as `views`, with keys `keys`, as `Resolve`
      describes, ending as `q` and `after` as `Outcome` describes. */
  ghost predicate Resolved(p: PlayerSnapshot, before: seq<EntityState>, views: seq<View>, keys: Keys,
                           assets: Assets, q: PlayerSnapshot, after: seq<EntityState>)
  {
    p.sprite.Some? && forall r :: r == Resolve(p, views, keys, assets) ==> Outcome(r, before, assets, q, after)
  }

  /** One simulation step from player state `p`: the player's physics step,
      then its movement, its reaction and the hazards' loops. */
  ghost predicate Simulated(p: PlayerSnapshot, before: seq<EntityState>, views: seq<View>, keys: Keys,
                            assets: Assets, q: PlayerSnapshot, after: seq<EntityState>)
  {
    Resolved(Physics(p, FPS, assets), before, views, keys, assets, q, after)
  }

  /** A simulation step costs the player at most one health point, moves
      it sideways by exactly its horizontal speed, and leaves it with no more
      than two jumps used; without a pending cooldown reset it moves at most
      one health point into the charge counter. */
  lemma SimulatedCostsAtMostOne(p: PlayerSnapshot, before: seq<EntityState>, views: seq<View>, keys: Keys,
                                assets: Assets, q: PlayerSnapshot, after: seq<EntityState>)
    requires Cooldown(p) && p.jumpCount <= 2
    requires Simulated(p, before, views, keys, assets, q, after)
    ensures p.health - 1 <= q.health <= p.health
    ensures q.rect.x == p.rect.x + p.xVel
    ensures q.jumpCount <= 2 && q.hitCount <= 2 * FPS && Cooldown(q)
    ensures !(p.hit && p.hitCount >= 2 * FPS) ==> q.health + q.hitTimes == p.health + p.hitTimes
  {
    var p1 := Physics(p, FPS, assets);
    var r := Resolve(p1, views, keys, assets);
    assert Outcome(r, before, assets, q, after);
    HurtKeepsCooldown(r.state);
  }

  /** A game is none of its objects. */
  lemma GameNotInFootprints(g: Game, objects: seq<Entity>)
    ensures g !in Footprints(objects)
  {
  }

  /** Objects whose hazards did not change keep their states and views. */
  twostate lemma StatesKept(objects: seq<Entity>)
    requires unchanged(Footprints(objects))
    ensures States(objects) == old(States(objects)) && Views(objects) == old(Views(objects))
  {
  }

  class Game {
    const player: Player
    const objects: seq<Entity>
    const assets: Assets
    /** The jump test the event loop applies. */
    const jumpTest: JumpTest
    /** The camera offset; the vertical one follows the real-valued speed. */
    var offsetX: int
    var offsetY: real

    /** The player keeps its damage cooldown, never has more than two jumps
        used and is never in the hit state longer than two seconds; every
        hazard keeps its own invariant and appears in one entry only. */
    ghost predicate Valid()
      reads player, Footprints(objects)
    {
      player.Valid() && player.jumpCount <= 2 && player.hitCount <= 2 * FPS &&
      (forall i :: 0 <= i < |objects| ==> EntityValid(objects[i])) && Distinct(objects)
    }

    /** A game whose player starts in cell `start`, with the camera centred on it. */
    constructor (start: Cell, objects: seq<Entity>, assets: Assets, jumpTest: JumpTest)
      requires forall i :: 0 <= i < |objects| ==> EntityValid(objects[i])
      requires Distinct(objects)
      ensures Valid() && fresh(player)
      ensures this.objects == objects && this.assets == assets && this.jumpTest == jumpTest
      ensures player.Snapshot() == PlayerSnapshot(Rect(start.col * BLOCK_SIZE, start.row * BLOCK_SIZE, 50, 50),
                                                  0, 0.0, Left, 0, 0, 0, false, 0, 0, START_HEALTH, None, None)
      ensures offsetX == start.col * BLOCK_SIZE - WIDTH / 2
      ensures offsetY == (start.row * BLOCK_SIZE - HEIGHT / 2) as real
    {
      var p := new Player(start.col * BLOCK_SIZE, start.row * BLOCK_SIZE, 50, 50);
      player := p;
      this.objects := objects;
      this.assets := assets;
      this.jumpTest := jumpTest;
      offsetX := p.rect.x - WIDTH / 2;
      offsetY := (p.rect.y - HEIGHT / 2) as real;
    }

    /** Handles the frame's events in order: a close request ends the game
        at once, a jump key makes the player jump while a jump is left. */
    method HandleEvents(events: seq<Event>) returns (quit: bool)
      modifies player
      ensures quit == Quits(events)
      ensures player.Snapshot() == AfterEvents(old(player.Snapshot()), events, jumpTest)
    {
      var i := 0;
      while i < |events|
        invariant 0 <= i <= |events|
        invariant forall j :: 0 <= j < i ==> !events[j].Quit?
        invariant AfterEvents(player.Snapshot(), events[i..], jumpTest) == AfterEvents(old(player.Snapshot()), events, jumpTest)
      {
        var event := events[i];
        if event.Quit? {
          return true;
        }
        assert events[i..][1..] == events[i + 1..];
        if event.KeyDown? && Jumps(jumpTest, event.key) && player.jumpCount < 2 {
          player.Jump();
        }
        i := i + 1;
      }
      return false;
    }

    /** Steps every hazard in list order: fires and trampolines animate, rock
        heads run their state machine against the objects and the player,
        which ends as it was or hit once. */
    method UpdateObjects()
      requires player.Valid() && player.mask.Some?
      requires forall i :: 0 <= i < |objects| ==> EntityValid(objects[i])
      requires Distinct(objects)
      modifies player, Footprints(objects)
      ensures player.Valid() && player.health <= old(player.health)
      ensures player.health + player.hitTimes == old(player.health + player.hitTimes)
      ensures player.Snapshot() == old(player.Snapshot()) || player.Snapshot() == Hurt(old(player.Snapshot()))
      ensures forall i :: 0 <= i < |objects| ==> EntityValid(objects[i])
      ensures forall i :: 0 <= i < |objects| ==> Advanced(old(StateOf(objects[i])), StateOf(objects[i]), FPS, assets)
    {
      var i := 0;
      while i < |objects|
        invariant 0 <= i <= |objects|
        invariant player.Valid() && player.health <= old(player.health)
        invariant player.health + player.hitTimes == old(player.health + player.hitTimes)
        invariant player.Snapshot() == old(player.Snapshot()) || player.Snapshot() == Hurt(old(player.Snapshot()))
        invariant forall j :: 0 <= j < |objects| ==> EntityValid(objects[j])
        invariant forall j :: 0 <= j < i ==> Advanced(old(StateOf(objects[j])), StateOf(objects[j]), FPS, assets)
        invariant forall j :: i <= j < |objects| ==> StateOf(objects[j]) == old(StateOf(objects[j]))
      {
        ghost var p := player.Snapshot();
        StepObject(i);
        HurtKeepsCooldown(p);
        i := i + 1;
      }
    }

    /** Steps the hazard of entry i, if it is one, leaving the player as it
        was or hit once. */
    method StepObject(i: nat)
      requires i < |objects| && Distinct(objects)
      requires player.Valid() && player.mask.Some?
      requires forall j :: 0 <= j < |objects| ==> EntityValid(objects[j])
      modifies player, Ref(objects[i])
      ensures player.Valid() && player.mask == old(player.mask)
      ensures player.Snapshot() == old(player.Snapshot()) ||
              (objects[i].RockHeadObj? && player.Snapshot() == Hurt(old(player.Snapshot())))
      ensures EntityValid(objects[i])
      ensures Advanced(old(StateOf(objects[i])), StateOf(objects[i]), FPS, assets)
      ensures objects[i].RockHeadObj? ==>
                Ticked(objects[i].rockHead.State(), player.Snapshot()) ==
                RockHeadTick(old(objects[i].rockHead.State()), old(player.Snapshot()), old(Views(objects)), assets)
      ensures forall j :: 0 <= j < |objects| && j != i ==>
                EntityValid(objects[j]) && StateOf(objects[j]) == old(StateOf(objects[j]))
    {
      ghost var p := player.Snapshot();
      ghost var views := Views(objects);
      match objects[i] {
        case FireObj(f) =>
          f.Loop(FPS, assets);
        case TrampolineObj(t) =>
          t.Loop(FPS, assets);
        case RockHeadObj(r) =>
          ghost var before := r.State();
          r.Loop(FPS, objects, player, assets, Views(objects));
          assert RockHeadIs(r.State()) == RockHeadIs(RockHeadTick(before, p, views, assets).rockHead);
        case Block(_, _) =>
        case Spike(_, _) =>
      }
      forall j | 0 <= j < |objects| && j != i
        ensures EntityValid(objects[j]) && StateOf(objects[j]) == old(StateOf(objects[j]))
      {
        assert old(EntityValid(objects[j]));
        if i < j {
          assert Ref(objects[i]) !! Ref(objects[j]);
        } else {
          assert Ref(objects[j]) !! Ref(objects[i]);
        }
        assert unchanged(Ref(objects[j]));
      }
    }

    /** One frame. A close request ends the game after the events before it
        and before anything moves. Otherwise the player and the hazards take
        one simulation step from the state the events left, the camera
        follows, and the game goes on while health is left; the frame costs
        the player at most one health point. */
    method Tick(events: seq<Event>, keys: Keys) returns (running: bool)
      requires Valid()
      modifies this`offsetX, this`offsetY, player, Footprints(objects)
      ensures Valid()
      ensures old(player.health) - 1 <= player.health <= old(player.health)
      ensures Quits(events) ==>
                !running && offsetX == old(offsetX) && offsetY == old(offsetY) &&
                player.Snapshot() == AfterEvents(old(player.Snapshot()), events, jumpTest) &&
                States(objects) == old(States(objects))
      ensures !Quits(events) ==>
                Simulated(AfterEvents(old(player.Snapshot()), events, jumpTest), old(States(objects)),
                          old(Views(objects)), keys, assets, player.Snapshot(), States(objects)) &&
                (running <==> player.health > 0) &&
                offsetX == ScrollX(old(offsetX), player.rect, player.xVel, SCROLL_AREA_WIDTH) &&
                offsetY == ScrollY(old(offsetY), player.rect, player.yVel, SCROLL_AREA_HEIGHT) &&
                offsetX >= 0
      ensures !(old(player.hit) && old(player.hitCount) >= 2 * FPS) ==>
                player.health + player.hitTimes == old(player.health + player.hitTimes)
    {
      PlayerNotInFootprints(player, objects);
      var quit := HandleEvents(events);
      StatesKept(objects);
      if quit {
        return false;
      }
      running := Advance(keys);
    }

    /** A frame after its events: the simulation step, then the camera
        follows; the game goes on while health is left. */
    method Advance(keys: Keys) returns (running: bool)
      requires Valid()
      modifies this`offsetX, this`offsetY, player, Footprints(objects)
      ensures Valid()
      ensures old(player.health) - 1 <= player.health <= old(player.health)
      ensures Simulated(old(player.Snapshot()), old(States(objects)), old(Views(objects)), keys, assets,
                        player.Snapshot(), States(objects))
      ensures running <==> player.health > 0
      ensures !(old(player.hit) && old(player.hitCount) >= 2 * FPS) ==>
                player.health + player.hitTimes == old(player.health + player.hitTimes)
      ensures offsetX == ScrollX(old(offsetX), player.rect, player.xVel, SCROLL_AREA_WIDTH) && offsetX >= 0
      ensures offsetY == ScrollY(old(offsetY), player.rect, player.yVel, SCROLL_AREA_HEIGHT)
    {
      Step(keys);
      ghost var q, after := player.Snapshot(), States(objects);
      GameNotInFootprints(this, objects);
      label Stepped:
      Follow();
      StatesKept@Stepped(objects);
      assert player.Snapshot() == q && States(objects) == after;
      running := player.health > 0;
    }

    /** The camera follows the player, as `ScrollX` and `ScrollY` say. */
    method Follow()
      modifies this`offsetX, this`offsetY
      ensures offsetX == ScrollX(old(offsetX), player.rect, player.xVel, SCROLL_AREA_WIDTH)
      ensures offsetY == ScrollY(old(offsetY), player.rect, player.yVel, SCROLL_AREA_HEIGHT)
    {
      offsetX := ScrollX(offsetX, player.rect, player.xVel, SCROLL_AREA_WIDTH);
      offsetY := ScrollY(offsetY, player.rect, player.yVel, SCROLL_AREA_HEIGHT);
    }

    /** The simulation part of a frame: the player's physics step, its
        movement and collisions, then the hazards, as `Simulated` says. */
    method Step(keys: Keys)
      requires Valid()
      modifies player, Footprints(objects)
      ensures Valid()
      ensures Simulated(old(player.Snapshot()), old(States(objects)), old(Views(objects)), keys, assets,
                        player.Snapshot(), States(objects))
      ensures old(player.health) - 1 <= player.health <= old(player.health)
      ensures !(old(player.hit) && old(player.hitCount) >= 2 * FPS) ==>
                player.health + player.hitTimes == old(player.health + player.hitTimes)
    {
      ghost var p0, before, views := player.Snapshot(), States(objects), Views(objects);
      PlayerNotInFootprints(player, objects);
      player.Loop(FPS, assets);
      StatesKept(objects);
      Interact(keys, views, before);
      SimulatedCostsAtMostOne(p0, before, views, keys, assets, player.Snapshot(), States(objects));
    }

    /** The part of a step after the player's physics: `HandleMove`, then
        every hazard's loop, as `Resolved` describes. */
    method Interact(keys: Keys, ghost views: seq<View>, ghost before: seq<EntityState>)
      requires player.Valid() && player.sprite.Some? && Distinct(objects)
      requires forall i :: 0 <= i < |objects| ==> EntityValid(objects[i])
      requires views == Views(objects) && before == States(objects)
      modifies player, Footprints(objects)
      ensures player.Valid() && forall i :: 0 <= i < |objects| ==> EntityValid(objects[i])
      ensures Resolved(old(player.Snapshot()), before, views, keys, assets, player.Snapshot(), States(objects))
    {
      ghost var p1 := player.Snapshot();
      TrampolinesInFootprints(objects);
      Move(keys, views, before);
      ghost var r := Resolve(p1, views, keys, assets);
      ghost var pressed := States(objects);
      assert forall i :: 0 <= i < |objects| ==> pressed[i] == PressedIf(before[i], r.target == Some(i));
      UpdateObjects();
      ghost var after := States(objects);
      assert player.Snapshot() == r.state || player.Snapshot() == Hurt(r.state);
      assert forall i :: 0 <= i < |objects| ==> Advanced(pressed[i], after[i], FPS, assets);
      assert Outcome(r, before, assets, player.Snapshot(), after);
    }

    /** The movement part of a step: `HandleMove`, seen as the player's
        resolution and the trampoline reacted to being pressed. */
    method Move(keys: Keys, ghost views: seq<View>, ghost before: seq<EntityState>)
      requires player.Valid() && player.sprite.Some? && Distinct(objects)
      requires forall i :: 0 <= i < |objects| ==> EntityValid(objects[i])
      requires views == Views(objects) && before == States(objects)
      modifies player, Trampolines(objects)
      ensures player.Valid() && player.mask.Some? && forall i :: 0 <= i < |objects| ==> EntityValid(objects[i])
      ensures Views(objects) == views
      ensures var r := Resolve(old(player.Snapshot()), views, keys, assets);
              player.Snapshot() == r.state &&
              forall i :: 0 <= i < |objects| ==> StateOf(objects[i]) == PressedIf(before[i], r.target == Some(i))
    {
      ghost var r := Resolve(player.Snapshot(), views, keys, assets);
      label Before:
      HandleMove(player, objects, keys, assets);
      forall i | 0 <= i < |objects| ensures StateOf(objects[i]) == PressedIf(before[i], r.target == Some(i)) {
        match objects[i]
        case TrampolineObj(t) =>
          assert t in Trampolines(objects);
          if r.target == Some(i) {
            assert t in TrampolineAt(objects, r.target);
          } else if t in TrampolineAt(objects, r.target) {
            assert false;
          }
        case FireObj(f) =>
          assert unchanged@Before(f);
        case RockHeadObj(rh) =>
          assert unchanged@Before(rh);
        case Block(_, _) =>
        case Spike(_, _) =>
      }
    }

    /** Runs frames until one ends the game or the input runs out; each
        frame played costs at most one health point. A game that is not
        over has played every frame, none of which asked to close the
        window, and its player has health left; a game that is over ended
        on the first frame that asked to close or left no health. */
    method Play(inputs: seq<Input>) returns (played: nat, over: bool)
      requires Valid()
      modifies this, player, Footprints(objects)
      ensures Valid()
      ensures played <= |inputs| && (!over ==> played == |inputs|)
      ensures over ==> 0 < played && (Quits(inputs[played - 1].events) || player.health <= 0)
      ensures forall k :: 0 <= k < played - 1 ==> !Quits(inputs[k].events)
      ensures !over ==> (forall k :: 0 <= k < |inputs| ==> !Quits(inputs[k].events)) &&
                        (|inputs| > 0 ==> player.health > 0)
      ensures old(player.health) - played <= player.health <= old(player.health)
    {
      played, over := 0, false;
      while played < |inputs|
        invariant Valid()
        invariant played <= |inputs|
        invariant old(player.health) - played <= player.health <= old(player.health)
        invariant forall k :: 0 <= k < played ==> !Quits(inputs[k].events)
        invariant played > 0 ==> player.health > 0
      {
        var running := Tick(inputs[played].events, inputs[played].keys);
        played := played + 1;
        if !running {
          over := true;
          return;
        }
      }
    }
  }

  /** Loads a level: scans the grid, creates its objects in row-major order
      and places the player in the last "P" cell, with the camera centred on
      it. A level without a "P" has no player, and no game can be played on
      it. */
  method Start(grid: seq<seq<char>>, assets: Assets, jumpTest: JumpTest) returns (game: Option<Game>)
    ensures game.Some? <==> PlayerStart(grid).Some?
    ensures game.Some? ==>
              var g := game.value;
              var c := PlayerStart(grid).value;
              fresh(g) && fresh(g.player) && fresh(Footprints(g.objects)) && g.Valid() && g.assets == assets &&
              g.jumpTest == jumpTest &&
              |g.objects| == |LevelSpawns(grid)| &&
              (forall i :: 0 <= i < |g.objects| ==> Creates(g.objects[i], LevelSpawns(grid)[i])) &&
              g.player.rect == Rect(c.col * BLOCK_SIZE, c.row * BLOCK_SIZE, 50, 50) &&
              g.player.health == START_HEALTH &&
              g.offsetX == c.col * BLOCK_SIZE - WIDTH / 2 &&
              g.offsetY == (c.row * BLOCK_SIZE - HEIGHT / 2) as real
  {
    var spawns, start := ScanLevel(grid);
    if start.None? {
      return None;
    }
    var objects := Populate(spawns);
    var g := new Game(start.value, objects, assets, jumpTest);
    return Some(g);
  }
}
