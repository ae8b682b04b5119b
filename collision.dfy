/** Collision resolution for the player: the side probes, the vertical pass
    that lands the player or bumps its head, and the reaction to the first
    hazard touched. Every collision test is the asset registry's mask
    overlap of the player's mask with an object's mask, each placed at its
    rectangle's top-left corner. */
module Collision {
  import opened Wrappers
  import opened Geometry
  import opened Sprites
  import opened PlayerModel
  import opened World

  /** Movement keys held during a tick: `left` is the left arrow or A, `right`
      the right arrow or D. */
  datatype Keys = Keys(left: bool, right: bool)

  /** The player's mask placed `dx` pixels to the side of the player's position. */
  function Shifted(s: PlayerSnapshot, dx: int): Placed
    requires s.mask.Some?
  {
    Placed(s.mask.value, s.rect.x + dx, s.rect.y)
  }

  /** Index of the first object, in list order, whose mask overlaps `probe`. */
  function Touching(views: seq<View>, probe: Placed, assets: Assets): (r: Option<nat>)
    ensures r.Some? ==> r.value < |views| && assets.overlap(probe, views[r.value].placed)
    ensures r.Some? ==> forall j :: 0 <= j < r.value ==> !assets.overlap(probe, views[j].placed)
    ensures r.None? <==> forall j :: 0 <= j < |views| ==> !assets.overlap(probe, views[j].placed)
  {
    First(views, (v: View) => assets.overlap(probe, v.placed))
  }

  /** The object at an optional index. */
  function At(objects: seq<Entity>, k: Option<nat>): (r: Option<Entity>)
    requires k.Some? ==> k.value < |objects|
    ensures r.Some? <==> k.Some?
    ensures r.Some? ==> r.value == objects[k.value]
  {
    if k.Some? then Some(objects[k.value]) else None
  }

  /** Side probe: tentatively moves the player by `dx`, redraws it, finds the
      first object its mask overlaps there, and moves it back. The player ends
      up redrawn at its old position. */
  method Collide(player: Player, objects: seq<Entity>, dx: int, assets: Assets, ghost views: seq<View>)
    returns (hit: Option<Entity>)
    requires player.sprite.Some? && views == Views(objects)
    modifies player
    ensures player.Snapshot() == Redrawn(old(player.Snapshot()), assets)
    ensures Views(objects) == views
    ensures hit == At(objects, Touching(views, Shifted(player.Snapshot(), dx), assets))
  {
    player.Move(dx, 0);
    player.Update(assets);
    ghost var probe := player.Placement();
    hit := None;
    var i := 0;
    while i < |objects|
      invariant 0 <= i <= |objects|
      invariant player.Placement() == probe
      invariant hit.None?
      invariant forall j :: 0 <= j < i ==> !assets.overlap(probe, views[j].placed)
    {
      assert views[i] == ViewOf(objects[i]);
      if assets.overlap(player.Placement(), ViewOf(objects[i]).placed) {
        hit := Some(objects[i]);
        break;
      }
      i := i + 1;
    }
    player.Move(-dx, 0);
    player.Update(assets);
    forall j | 0 <= j < |objects| ensures ViewOf(objects[j]) == views[j] {
    }
    assert Views(objects) == views;
    assert probe == Shifted(player.Snapshot(), dx);
    ghost var k := Touching(views, probe, assets);
    if hit.Some? {
      assert k.Some? && k.value == i;
    }
  }

  /** The effect of colliding vertically with the object seen as `v` while
      moving by `dy`: moving down, the player is put on top of it and lands;
      moving up, it is put below it and its vertical speed is reversed. */
  function VerticalStep(s: PlayerSnapshot, v: View, dy: real): PlayerSnapshot {
    if dy > 0.0 then Land(s.(rect := s.rect.WithBottom(v.rect.Top())))
    else if dy < 0.0 then BumpHead(s.(rect := s.rect.WithTop(v.rect.Bottom())))
    else s
  }

  /** The outcome of a vertical pass: the player's state and the indices of
      the objects collided with, in list order. */
  datatype Scan = Scan(state: PlayerSnapshot, hits: seq<nat>)

  /** The vertical pass over the first `n` objects: each object is tested
      against the player where the previous ones left it. Only the vertical
      position and the flight fields can change, and a jump is never gained. */
  function VerticalScan(s: PlayerSnapshot, views: seq<View>, n: nat, dy: real, assets: Assets): (r: Scan)
    requires s.mask.Some? && n <= |views|
    ensures |r.hits| <= n
    ensures forall k :: 0 <= k < |r.hits| ==> r.hits[k] < n
    ensures forall k, l :: 0 <= k < l < |r.hits| ==> r.hits[k] < r.hits[l]
    ensures r.state == s.(rect := r.state.rect, yVel := r.state.yVel,
                          fallCount := r.state.fallCount, jumpCount := r.state.jumpCount)
    ensures r.state.rect.x == s.rect.x && r.state.rect.w == s.rect.w && r.state.rect.h == s.rect.h
    ensures r.state.jumpCount <= s.jumpCount
    decreases n
  {
    if n == 0 then Scan(s, [])
    else
      var prev := VerticalScan(s, views, n - 1, dy, assets);
      if assets.overlap(Shifted(prev.state, 0), views[n - 1].placed)
      then Scan(VerticalStep(prev.state, views[n - 1], dy), prev.hits + [n - 1])
      else prev
  }

  /** The objects at the given indices, in that order. */
  function Pick(objects: seq<Entity>, hits: seq<nat>): (r: seq<Entity>)
    requires forall k :: 0 <= k < |hits| ==> hits[k] < |objects|
    ensures |r| == |hits| && forall k :: 0 <= k < |hits| ==> r[k] == objects[hits[k]]
  {
    seq(|hits|, k requires 0 <= k < |hits| => objects[hits[k]])
  }

  /** The vertical pass: every object the player's mask overlaps, in list
      order, is collided with; the list of those objects is returned. */
  method HandleVerticalCollision(player: Player, objects: seq<Entity>, dy: real, assets: Assets,
                                 ghost views: seq<View>)
    returns (collided: seq<Entity>)
    requires player.mask.Some? && views == Views(objects)
    modifies player
    ensures Views(objects) == views
    ensures var r := VerticalScan(old(player.Snapshot()), views, |objects|, dy, assets);
            player.Snapshot() == r.state && collided == Pick(objects, r.hits)
  {
    ghost var s0 := player.Snapshot();
    PlayerNotInFootprints(player, objects);
    collided := [];
    var i := 0;
    while i < |objects|
      invariant 0 <= i <= |objects|
      invariant player.mask == s0.mask
      invariant Views(objects) == views
      invariant player.Snapshot() == VerticalScan(s0, views, i, dy, assets).state
      invariant collided == Pick(objects, VerticalScan(s0, views, i, dy, assets).hits)
    {
      var obj := objects[i];
      var hit := CollideVertically(player, obj, dy, assets, views[i]);
      if hit {
        collided := collided + [obj];
      }
      i := i + 1;
    }
  }

  /** The player is no part of any object. */
  lemma PlayerNotInFootprints(player: Player, objects: seq<Entity>)
    ensures player !in Footprints(objects)
  {
  }

  /** One object of the vertical pass, seen as `v`: when the player's mask
      overlaps it, the player is moved against it and lands or bumps its head. */
  method CollideVertically(player: Player, obj: Entity, dy: real, assets: Assets, ghost v: View) returns (hit: bool)
    requires player.mask.Some? && v == ViewOf(obj)
    modifies player
    ensures hit == assets.overlap(Shifted(old(player.Snapshot()), 0), v.placed)
    ensures player.Snapshot() == if hit then VerticalStep(old(player.Snapshot()), v, dy) else old(player.Snapshot())
  {
    hit := assets.overlap(player.Placement(), ViewOf(obj).placed);
    if hit {
      if dy > 0.0 {
        player.rect := player.rect.WithBottom(ViewOf(obj).rect.Top());
        player.Landed();
      } else if dy < 0.0 {
        player.rect := player.rect.WithTop(ViewOf(obj).rect.Bottom());
        player.HitHead();
      }
    }
  }

  /** A pass that collides with nothing leaves the player as it was. */
  lemma {:induction false} ScanMissed(s: PlayerSnapshot, views: seq<View>, n: nat, dy: real, assets: Assets)
    requires s.mask.Some? && n <= |views|
    ensures |VerticalScan(s, views, n, dy, assets).hits| == 0 ==> VerticalScan(s, views, n, dy, assets).state == s
  {
    if n > 0 {
      ScanMissed(s, views, n - 1, dy, assets);
    }
  }

  /** Without vertical movement the pass changes nothing and collides with
      exactly the objects the player's mask overlaps. */
  lemma {:induction false} ScanAtRest(s: PlayerSnapshot, views: seq<View>, n: nat, assets: Assets)
    requires s.mask.Some? && n <= |views|
    ensures VerticalScan(s, views, n, 0.0, assets).state == s
    ensures forall j :: 0 <= j < n ==>
              (j in VerticalScan(s, views, n, 0.0, assets).hits <==> assets.overlap(Shifted(s, 0), views[j].placed))
  {
    if n > 0 {
      ScanAtRest(s, views, n - 1, assets);
    }
  }

  /** Moving down, a pass that collides with anything leaves the player
      standing on the last object collided with, landed: no vertical speed,
      the jump budget and the gravity ramp restarted. */
  lemma {:induction false} ScanLands(s: PlayerSnapshot, views: seq<View>, n: nat, dy: real, assets: Assets)
    requires s.mask.Some? && n <= |views| && dy > 0.0
    ensures var r := VerticalScan(s, views, n, dy, assets);
            |r.hits| > 0 ==>
              r.state.rect.Bottom() == views[r.hits[|r.hits| - 1]].rect.Top() &&
              r.state.yVel == 0.0 && r.state.fallCount == 0 && r.state.jumpCount == 0
  {
    if n > 0 {
      ScanLands(s, views, n - 1, dy, assets);
    }
  }

  /** Moving up, every collision reverses the vertical speed, so it ends
      reversed exactly when the number of collisions is odd; the player ends
      just below the last object collided with, and the jump budget and the
      gravity ramp are untouched. */
  lemma {:induction false} ScanBumps(s: PlayerSnapshot, views: seq<View>, n: nat, dy: real, assets: Assets)
    requires s.mask.Some? && n <= |views| && dy < 0.0
    ensures var r := VerticalScan(s, views, n, dy, assets);
            r.state.yVel == (if |r.hits| % 2 == 0 then s.yVel else -s.yVel) &&
            r.state.fallCount == s.fallCount && r.state.jumpCount == s.jumpCount &&
            (|r.hits| > 0 ==> r.state.rect.Top() == views[r.hits[|r.hits| - 1]].rect.Bottom())
  {
    if n > 0 {
      ScanBumps(s, views, n - 1, dy, assets);
    }
  }

  /** Objects with a reaction: fire and spikes hurt, trampolines bounce;
      blocks and rock heads have none. */
  predicate Reactive(k: Kind) {
    k == FireKind || k == SpikeKind || k == TrampolineKind
  }

  /** The player's state after reacting to an object of kind `k`. */
  function React(s: PlayerSnapshot, k: Kind): (t: PlayerSnapshot)
    ensures k == TrampolineKind ==> t == Bounce(s)
    ensures k == FireKind || k == SpikeKind ==> t == Hurt(s)
    ensures !Reactive(k) ==> t == s
  {
    if k == TrampolineKind then Bounce(s) else if Reactive(k) then Hurt(s) else s
  }

  /** A candidate of the reaction pass that has a reaction. */
  predicate Reacts(c: Option<Entity>) {
    c.Some? && Reactive(KindOf(c.value))
  }

  /** The trampoline the reaction pass bounces on: the first candidate with a
      reaction, when it is a trampoline. */
  function Bounced(toCheck: seq<Option<Entity>>): set<Trampoline> {
    var k := First(toCheck, Reacts);
    if k.Some? && toCheck[k.value].value.TrampolineObj? then {toCheck[k.value].value.trampoline} else {}
  }

  /** The reaction pass: the first candidate, in order, that is fire or a
      spike hurts the player, or that is a trampoline bounces the player and
      starts the trampoline's jump animation; later candidates are ignored. */
  method Dispatch(player: Player, toCheck: seq<Option<Entity>>)
    requires player.Valid()
    requires forall t | t in Bounced(toCheck) :: t.Valid()
    modifies player, Bounced(toCheck)
    ensures player.Valid()
    ensures var k := First(toCheck, Reacts);
            player.Snapshot() == if k.Some? then React(old(player.Snapshot()), KindOf(toCheck[k.value].value))
                                 else old(player.Snapshot())
    ensures forall t | t in Bounced(toCheck) :: t.Valid() && t.State() == Pressed(old(t.State()))
  {
    var i := 0;
    while i < |toCheck|
      invariant 0 <= i <= |toCheck|
      invariant forall j :: 0 <= j < i ==> !Reacts(toCheck[j])
    {
      var c := toCheck[i];
      if c.Some? && KindOf(c.value) == FireKind {
        FirstAt(toCheck, Reacts, i);
        player.MakeHit();
        return;
      } else if c.Some? && KindOf(c.value) == SpikeKind {
        FirstAt(toCheck, Reacts, i);
        player.MakeHit();
        return;
      } else if c.Some? && KindOf(c.value) == TrampolineKind {
        FirstAt(toCheck, Reacts, i);
        c.value.trampoline.JumpPlayer();
        player.JumpTrampoline();
        return;
      }
      i := i + 1;
    }
  }

  /** The trampolines among the objects. */
  function Trampolines(objects: seq<Entity>): set<Trampoline> {
    set i | 0 <= i < |objects| && objects[i].TrampolineObj? :: objects[i].trampoline
  }

  /** The candidate at an optional object index has a reaction. */
  predicate ReactsAt(views: seq<View>, c: Option<nat>) {
    c.Some? && c.value < |views| && Reactive(views[c.value].kind)
  }

  function ReactsIn(views: seq<View>): Option<nat> -> bool {
    c => ReactsAt(views, c)
  }

  /** The reaction candidates as object indices, in the order they are
      checked: the left probe, the right probe, then the vertical collisions. */
  function Candidates(left: Option<nat>, right: Option<nat>, hits: seq<nat>): (c: seq<Option<nat>>)
    ensures |c| == |hits| + 2 && c[0] == left && c[1] == right
    ensures forall k :: 0 <= k < |hits| ==> c[k + 2] == Some(hits[k])
  {
    [left, right] + seq(|hits|, k requires 0 <= k < |hits| => Some(hits[k]))
  }

  /** Index of the object the player reacts to: the first candidate that has a
      reaction; None exactly when no candidate has one. */
  function Reacting(views: seq<View>, cands: seq<Option<nat>>): (r: Option<nat>)
    ensures r.Some? ==> r.value < |views| && Reactive(views[r.value].kind)
    ensures r.None? <==> forall k :: 0 <= k < |cands| ==> !ReactsAt(views, cands[k])
    ensures r.Some? ==> exists k :: 0 <= k < |cands| && cands[k] == r &&
                                    forall j :: 0 <= j < k ==> !ReactsAt(views, cands[j])
  {
    var k := First(cands, ReactsIn(views));
    if k.Some? then cands[k.value] else None
  }

  /** Steering: the horizontal speed is cleared, then set to run left when
      the left key is held and the left side is free, then to run right when
      the right key is held and the right side is free; right wins when both
      apply. */
  function Steer(s: PlayerSnapshot, keys: Keys, blockedLeft: bool, blockedRight: bool): (t: PlayerSnapshot)
    ensures t.xVel == (if keys.right && !blockedRight then PLAYER_VEL
                       else if keys.left && !blockedLeft then -PLAYER_VEL else 0)
    ensures t.direction == (if keys.right && !blockedRight then Right
                            else if keys.left && !blockedLeft then Left else s.direction)
    ensures var turnsLeft := keys.left && !blockedLeft && s.direction != Left;
            var turnsRight := keys.right && !blockedRight && ((keys.left && !blockedLeft) || s.direction != Right);
            t.animationCount == if turnsLeft || turnsRight then 0 else s.animationCount
    ensures t == s.(xVel := t.xVel, direction := t.direction, animationCount := t.animationCount)
  {
    var stopped := s.(xVel := 0);
    var runLeft := if keys.left && !blockedLeft then Steered(stopped, Left, PLAYER_VEL) else stopped;
    if keys.right && !blockedRight then Steered(runLeft, Right, PLAYER_VEL) else runLeft
  }

  /** Every stage of one movement step, as values. */
  datatype Resolution = Resolution(
    left: Option<nat>, right: Option<nat>, steered: PlayerSnapshot,
    scan: Scan, target: Option<nat>, state: PlayerSnapshot)

  /** The player's state after the reaction to the object at `target`, if any. */
  function Reacted(s: PlayerSnapshot, views: seq<View>, target: Option<nat>): (t: PlayerSnapshot)
    requires target.Some? ==> target.value < |views|
    ensures Cooldown(s) ==> Cooldown(t) && t.health + t.hitTimes == s.health + s.hitTimes
    ensures t.xVel == s.xVel && t.direction == s.direction && t.rect == s.rect && t.jumpCount == s.jumpCount
    ensures t.sprite == s.sprite && t.mask == s.mask && t.hitCount == s.hitCount
    ensures t.health <= s.health
  {
    if target.Some? then React(s, views[target.value].kind) else s
  }

  /** One movement step of a player in state `s` among objects seen as
      `views`: probe 10 pixels to each side, steer by the keys, pass
      vertically with the current vertical speed, then react to the first
      candidate with a reaction. The player never moves sideways here, never
      gains a jump, and loses at most the one health point a hit charges. */
  function Resolve(s: PlayerSnapshot, views: seq<View>, keys: Keys, assets: Assets): (r: Resolution)
    requires s.sprite.Some?
    ensures r.state.xVel == (if keys.right && r.right.None? then PLAYER_VEL
                             else if keys.left && r.left.None? then -PLAYER_VEL else 0)
    ensures r.state.direction == (if keys.right && r.right.None? then Right
                                  else if keys.left && r.left.None? then Left else s.direction)
    ensures r.state.rect.x == s.rect.x
    ensures r.state.jumpCount <= s.jumpCount
    ensures r.state.sprite == s.sprite && r.state.mask == s.sprite && r.state.hitCount == s.hitCount
    ensures Cooldown(s) ==> Cooldown(r.state) && r.state.health + r.state.hitTimes == s.health + s.hitTimes
    ensures r.state.health <= s.health
    ensures r.target.Some? ==> r.target.value < |views| && Reactive(views[r.target.value].kind) &&
                               r.state == React(r.scan.state, views[r.target.value].kind)
    ensures r.target.None? ==> r.state == r.scan.state
    ensures var drawn := Redrawn(s, assets);
            r.left == Touching(views, Shifted(drawn, -PLAYER_VEL * 2), assets) &&
            r.right == Touching(views, Shifted(drawn, PLAYER_VEL * 2), assets) &&
            r.steered == Steer(drawn, keys, r.left.Some?, r.right.Some?)
    ensures r.scan == VerticalScan(r.steered, views, |views|, r.steered.yVel, assets)
  {
    var drawn := Redrawn(s, assets);
    var left := Touching(views, Shifted(drawn, -PLAYER_VEL * 2), assets);
    var right := Touching(views, Shifted(drawn, PLAYER_VEL * 2), assets);
    var steered := Steer(drawn, keys, left.Some?, right.Some?);
    var scan := VerticalScan(steered, views, |views|, steered.yVel, assets);
    var target := Reacting(views, Candidates(left, right, scan.hits));
    Resolution(left, right, steered, scan, target, Reacted(scan.state, views, target))
  }

  /** The object a movement step reacts to is the first reactive one among
      the side probes' results and the vertical pass's collisions, in that
      order. */
  lemma ResolveTarget(s: PlayerSnapshot, views: seq<View>, keys: Keys, assets: Assets)
    requires s.sprite.Some?
    ensures var r := Resolve(s, views, keys, assets);
            r.target == Reacting(views, Candidates(r.left, r.right, r.scan.hits)) &&
            r.state == Reacted(r.scan.state, views, r.target)
  {
  }

  /** The options as candidates. */
  function Somes<T>(s: seq<T>): (r: seq<Option<T>>)
    ensures |r| == |s| && forall k :: 0 <= k < |s| ==> r[k] == Some(s[k])
  {
    seq(|s|, k requires 0 <= k < |s| => Some(s[k]))
  }

  /** The trampoline at an optional object index, if it is one. */
  function TrampolineAt(objects: seq<Entity>, k: Option<nat>): set<Trampoline> {
    if k.Some? && k.value < |objects| && objects[k.value].TrampolineObj? then {objects[k.value].trampoline} else {}
  }

  /** One movement step of the player: the side probes, the run keys, the
      vertical pass and the reaction, as `Resolve` describes. The only object
      that changes besides the player is the trampoline bounced on, whose jump
      animation starts; what the collision tests see of the objects is
      unchanged. */
  method HandleMove(player: Player, objects: seq<Entity>, keys: Keys, assets: Assets)
    requires player.Valid() && player.sprite.Some?
    requires forall i :: 0 <= i < |objects| ==> EntityValid(objects[i])
    modifies player, Trampolines(objects)
    ensures player.Valid()
    ensures var r := Resolve(old(player.Snapshot()), old(Views(objects)), keys, assets);
            player.Snapshot() == r.state &&
            forall t | t in Trampolines(objects) ::
              t.Valid() &&
              t.State() == if t in TrampolineAt(objects, r.target) then Pressed(old(t.State())) else old(t.State())
    ensures Views(objects) == old(Views(objects))
    ensures forall i :: 0 <= i < |objects| ==> EntityValid(objects[i])
  {
    ghost var views := Views(objects);
    var collideLeft, collideRight, vertical := Prepare(player, objects, keys, assets, views);
    ghost var r := Resolve(old(player.Snapshot()), views, keys, assets);
    assert player.Snapshot() == r.scan.state;
    Respond(player, objects, collideLeft, collideRight, vertical, r.left, r.right, r.scan.hits, views);
    assert r.target == Reacting(views, Candidates(r.left, r.right, r.scan.hits));
  }

  /** The movement step up to the reaction pass: the side probes, steering
      and the vertical pass. */
  method Prepare(player: Player, objects: seq<Entity>, keys: Keys, assets: Assets, ghost views: seq<View>)
    returns (left: Option<Entity>, right: Option<Entity>, vertical: seq<Entity>)
    requires player.Valid() && player.sprite.Some? && views == Views(objects)
    modifies player
    ensures player.Valid() && Views(objects) == views
    ensures var r := Resolve(old(player.Snapshot()), views, keys, assets);
            player.Snapshot() == r.scan.state &&
            left == At(objects, r.left) && right == At(objects, r.right) &&
            vertical == Pick(objects, r.scan.hits)
  {
    ghost var r := Resolve(player.Snapshot(), views, keys, assets);
    left, right := ProbeSides(player, objects, assets, views);
    ghost var drawn := Redrawn(old(player.Snapshot()), assets);
    assert Shifted(player.Snapshot(), -PLAYER_VEL * 2) == Shifted(drawn, -PLAYER_VEL * 2);
    assert Shifted(player.Snapshot(), PLAYER_VEL * 2) == Shifted(drawn, PLAYER_VEL * 2);
    SteerPlayer(player, keys, left, right, objects, views);
    assert player.Snapshot() == r.steered;
    vertical := HandleVerticalCollision(player, objects, player.yVel, assets, views);
  }

  /** The side probes of a movement step: the horizontal speed is cleared and
      the first object 10 pixels to the left and to the right is found. */
  method ProbeSides(player: Player, objects: seq<Entity>, assets: Assets, ghost views: seq<View>)
    returns (left: Option<Entity>, right: Option<Entity>)
    requires player.sprite.Some? && views == Views(objects)
    modifies player
    ensures player.Snapshot() == Redrawn(old(player.Snapshot()), assets).(xVel := 0)
    ensures Views(objects) == views
    ensures left == At(objects, Touching(views, Shifted(player.Snapshot(), -PLAYER_VEL * 2), assets))
    ensures right == At(objects, Touching(views, Shifted(player.Snapshot(), PLAYER_VEL * 2), assets))
  {
    player.xVel := 0;
    forall j | 0 <= j < |objects| ensures ViewOf(objects[j]) == views[j] {
    }
    left := Collide(player, objects, -PLAYER_VEL * 2, assets, views);
    ghost var probed := player.Snapshot();
    right := Collide(player, objects, PLAYER_VEL * 2, assets, views);
    assert player.Snapshot() == probed;
  }

  /** Steering by the keys, given whether each side is blocked. */
  method SteerPlayer(player: Player, keys: Keys, left: Option<Entity>, right: Option<Entity>,
                     ghost objects: seq<Entity>, ghost views: seq<View>)
    requires player.xVel == 0 && views == Views(objects)
    modifies player
    ensures player.Snapshot() == Steer(old(player.Snapshot()), keys, left.Some?, right.Some?)
    ensures Views(objects) == views
  {
    if keys.left && left.None? {
      player.MoveLeft(PLAYER_VEL);
    }
    if keys.right && right.None? {
      player.MoveRight(PLAYER_VEL);
    }
    forall j | 0 <= j < |objects| ensures ViewOf(objects[j]) == views[j] {
    }
  }

  /** The reaction pass of a movement step over the side probes' results and
      the vertical collisions, which are the objects at the indices `l`, `rr`
      and `hits`. */
  method Respond(player: Player, objects: seq<Entity>, left: Option<Entity>, right: Option<Entity>,
                 vertical: seq<Entity>, ghost l: Option<nat>, ghost rr: Option<nat>, ghost hits: seq<nat>,
                 ghost views: seq<View>)
    requires player.Valid()
    requires views == Views(objects)
    requires forall i :: 0 <= i < |objects| ==> EntityValid(objects[i])
    requires (l.Some? ==> l.value < |objects|) && (rr.Some? ==> rr.value < |objects|)
    requires forall k :: 0 <= k < |hits| ==> hits[k] < |objects|
    requires left == At(objects, l) && right == At(objects, rr) && vertical == Pick(objects, hits)
    modifies player, Trampolines(objects)
    ensures player.Valid()
    ensures Views(objects) == views
    ensures forall i :: 0 <= i < |objects| ==> EntityValid(objects[i])
    ensures var target := Reacting(views, Candidates(l, rr, hits));
            player.Snapshot() == Reacted(old(player.Snapshot()), views, target) &&
            forall t | t in Trampolines(objects) ::
              t.Valid() &&
              t.State() == if t in TrampolineAt(objects, target) then Pressed(old(t.State())) else old(t.State())
  {
    var toCheck := [left, right] + Somes(vertical);
    CandidatesAgree(objects, views, l, rr, hits, toCheck);
    forall t | t in Bounced(toCheck) ensures t.Valid() {
      var i :| 0 <= i < |objects| && objects[i] == TrampolineObj(t);
      assert EntityValid(objects[i]);
    }
    Dispatch(player, toCheck);
    forall j | 0 <= j < |objects| ensures ViewOf(objects[j]) == views[j] && EntityValid(objects[j]) {
      match objects[j]
      case TrampolineObj(t) =>
        if t !in Bounced(toCheck) {
          assert unchanged(t);
          assert old(EntityValid(objects[j]));
        }
      case RockHeadObj(r) =>
        assert unchanged(r);
        assert old(EntityValid(objects[j]));
      case FireObj(f) =>
        assert unchanged(f);
      case Block(_, _) =>
      case Spike(_, _) =>
    }
    assert Views(objects) == views;
  }

  /** The reaction candidates as objects react like the candidates as object
      indices: the first one with a reaction is the same object. */
  lemma CandidatesAgree(objects: seq<Entity>, views: seq<View>, l: Option<nat>, rr: Option<nat>,
                        hits: seq<nat>, toCheck: seq<Option<Entity>>)
    requires |views| == |objects| && forall i :: 0 <= i < |objects| ==> views[i].kind == KindOf(objects[i])
    requires (l.Some? ==> l.value < |objects|) && (rr.Some? ==> rr.value < |objects|)
    requires forall k :: 0 <= k < |hits| ==> hits[k] < |objects|
    requires toCheck == [At(objects, l), At(objects, rr)] + Somes(Pick(objects, hits))
    ensures var target := Reacting(views, Candidates(l, rr, hits));
            var k := First(toCheck, Reacts);
            Bounced(toCheck) == TrampolineAt(objects, target) &&
            (k.Some? <==> target.Some?) &&
            (k.Some? ==> toCheck[k.value].value == objects[target.value])
  {
    var cands := Candidates(l, rr, hits);
    assert |toCheck| == |cands|;
    forall k | 0 <= k < |toCheck| ensures toCheck[k] == At(objects, cands[k]) {
    }
    forall k | 0 <= k < |toCheck| ensures Reacts(toCheck[k]) == ReactsIn(views)(cands[k]) {
    }
    FirstAgrees(toCheck, cands, Reacts, ReactsIn(views));
  }
}
