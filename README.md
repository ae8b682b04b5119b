# Platformer game-state model

A Dafny model of the game logic of a small pygame platformer (`main.py`). It has these parts:

- The player state machine: jumping with a two-jump budget, trampoline bounces, landing, head bumps, damage with a cooldown, gravity that ramps up with fall time, and the choice of animation.
- The collision resolver:
  - the horizontal probes that move the player by ±10 pixels and back;
  - the vertical pass that snaps the player to the edges of what it touches;
  - the dispatch of at most one reaction per frame (fire, spike or trampoline).
- The three animated hazards:
  - the fire, whose frame counter wraps;
  - the trampoline, which is Idle or holding a Jump animation;
  - the rock head, a four-phase crusher: idle, falling, smashed, resetting.
- The camera scroll, with its 200-pixel dead zones in a 1000×800 window.
- One frame of the main loop, and a run of frames:
  - events, then the player's physics step;
  - movement and collisions, then every hazard's loop in list order;
  - the scroll, then the end of the game at zero health.
- Level loading, which turns a character grid into a row-major list of objects to create plus a player start cell, and the background tile grid.

Pixel-mask overlap (`pygame.sprite.collide_mask`) is an uninterpreted parameter: `Assets.overlap`, a predicate over two placed frames. So are the frame count and size of every sprite sheet. Rectangle overlap (`Rect.colliderect`) is modelled exactly.

Object state that the source changes in place is held in classes: `Player`, `Fire`, `Trampoline`, `RockHead` and `Game`. Each method is proved against a pure function of the old state, such as `Leap`, `Hurt`, `Physics`, `FireStep`, `TrampolineStep`, `RockHeadTick`, `VerticalScan`, `Resolve`, `ScrollX`, `LevelSpawns` or `Tiles`. A whole frame is tied to them by `Simulated`. The properties the game relies on are proved about those functions, and the methods keep them from frame to frame (in their `Valid` invariants or their `ensures`):

- the jump budget stays at most 2;
- the damage debounce: a frame keeps health plus `hit_times` unless the cooldown clears during it, so hits inside one cooldown cost one health in all;
- a hurt costs at most one health;
- the trampoline's Idle implies a zero jump counter;
- the rock head's vertical speed is zero outside the falling phase;
- the camera offset never goes negative.

Files:

- `wrappers.dfy`: `Option` and the first-match search.
- `geometry.dfy`: window constants and `Rect`.
- `sprites.dfy`: sheets, frames and the asset parameters.
- `player.dfy`: `Player`.
- `world.dfy`: the object union and the hazards.
- `collision.dfy`: the collision resolver.
- `camera.dfy`: the scroll.
- `level.dfy`: the grid scan and background tiles.
- `game.dfy`: the frame loop and setup.

I/O and library calls are inputs to the model:

- The level grid is given already parsed.
- A frame's input is its list of events and the held left/right keys.
- Sprite sizes, frame counts, the mask test and the float-to-pixel conversion are given as `Assets`.

## Model

| member | source | states |
|---|---|---|
| Geometry.ColliderectSymmetric | main.py:332 | rectangle overlap with strict inequalities is symmetric |
| Geometry.ColliderectIffCommonPixel | main.py:332 | two non-empty rectangles overlap exactly when some pixel lies in both |
| Sprites.FrameIndex | main.py:161-162 | the frame index `(count // delay) % len` is a valid index, and it is 0 during the first `delay` ticks |
| PlayerModel.GravityRamp | main.py:123 | `min(1, fall_count/fps)` lies in [0, 1]; it is exactly 0 at fall count 0 and exactly 1 once the fall count reaches fps; below that it is fall_count/fps |
| PlayerModel.SelectAnimation | main.py:145-157 | the animation priority, each name with its exact condition (both directions): hit, then rising with jump count 1 or 2, then falling faster than 2, then running, then idle |
| PlayerModel.Hurt | main.py:104-108 | a hit sets `hit`; only when `hit_times` was 0 does it cost one health and set `hit_times` to 1, otherwise `hit_times` and health stay; nothing else changes |
| PlayerModel.HurtRepeatedly | main.py:104-108 | any number n ≥ 1 of hits before the cooldown clears gives the same state as one hit, so it costs at most one health |
| PlayerModel.HurtKeepsCooldown | main.py:104-108 | a hit keeps the cooldown invariant (`hit_times ≤ 1`, `hit_times = 1 ⇒ hit`, `hit_count > 0 ⇒ hit`) and keeps health + hit_times constant |
| PlayerModel.Redrawn | main.py:167-169 | re-deriving the rect from the sprite keeps the top-left corner, takes the sprite's size and sets the mask to the sprite |
| PlayerModel.Kinematics | main.py:123-133 | the motion half of a tick: y_vel grows by the gravity ramp; x moves by x_vel and y by the new y_vel; while hit the cooldown counter goes up, and once it passes 2·fps hit, hit_count and hit_times are all cleared; fall_count goes up by 1; nothing else changes |
| PlayerModel.Player.Accelerate | main.py:123-133 | the new state is `Kinematics` of the old one |
| PlayerModel.Physics | main.py:122-134 | one physics step: y_vel grows by the gravity ramp (0 at fall count 0, 1 from fps on); x moves by x_vel and y by the new y_vel; fall_count goes up by 1; hit_count counts the cooldown and is reset with hit and hit_times once it passes 2·fps, so it stays ≤ 2·fps; x_vel, direction, jump_count and health are unchanged; the cooldown invariant is kept; the sprite is the frame of the sheet `SelectAnimation` picks for the new state, and the rect and mask are drawn from it |
| PlayerModel.RedrawnIdempotent | main.py:167-169 | redrawing twice is redrawing once, and redrawing a redrawn player that has only moved sideways by dx changes nothing, so the move alone is already a redrawn state |
| PlayerModel.Steered | main.py:110-120 | moving left/right sets x_vel to ∓vel and the direction; the animation counter restarts only on a change of direction |
| PlayerModel.Bounce | main.py:96-98 | a trampoline jump sets y_vel to −12 and restarts the animation; the jump budget is untouched |
| PlayerModel.Land | main.py:136-139 | landing zeroes y_vel, fall_count and jump_count and nothing else |
| PlayerModel.BumpHead | main.py:141-143 | a head bump negates y_vel and nothing else |
| PlayerModel.Leap | main.py:89-94 | a jump sets y_vel to −8, restarts the animation, adds 1 to jump_count, and restarts the gravity ramp only on the first jump |
| PlayerModel.Player.constructor | main.py:73-87 | a new player is at rest at (x, y, w, h) with 5 health, facing left, with no sprite yet and the cooldown invariant holding |
| PlayerModel.Player.Jump | main.py:89-94 | the new state is `Leap` of the old one |
| PlayerModel.Player.JumpTrampoline | main.py:96-98 | the new state is `Bounce` of the old one |
| PlayerModel.Player.Move | main.py:100-102 | the rect moves by (dx, dy); nothing else changes |
| PlayerModel.Player.MakeHit | main.py:104-108 | the new state is `Hurt` of the old one; the invariant and health + hit_times are kept |
| PlayerModel.Player.MoveLeft | main.py:110-114 | the new state is `Steered` left |
| PlayerModel.Player.MoveRight | main.py:116-120 | the new state is `Steered` right |
| PlayerModel.Player.Landed | main.py:136-139 | the new state is `Land` of the old one |
| PlayerModel.Player.HitHead | main.py:141-143 | the new state is `BumpHead` of the old one |
| PlayerModel.Player.Update | main.py:167-169 | the new state is `Redrawn` of the old one |
| PlayerModel.Animated | main.py:145-165 | the sprite is the frame `FrameIndex(count, 3, len)` of the sheet `SelectAnimation` picks for the state; the counter goes up by 1; the rect keeps its corner and takes the sheet's size; the mask follows the sprite; nothing else changes |
| PlayerModel.Player.UpdateSprite | main.py:145-165 | the new state is `Animated` of the old one, and the rect and mask are drawn from the new sprite |
| PlayerModel.Player.Loop | main.py:122-134 | the new state is `Physics` of the old one; the invariant is kept and the rect and mask are drawn from the new sprite |
| World.Fire.constructor | main.py:204-210 | a new fire shows frame 0 of "on" at (x, y, w, h) with counter 0 |
| World.Fire.On | main.py:212-213 | selects the "on" animation and changes nothing else |
| World.Fire.Off | main.py:215-216 | selects the "off" animation and changes nothing else |
| World.FireStep | main.py:218-229 | shows frame `FrameIndex(count, 6, len)` of the current sheet; the rect takes the sheet's size at the same corner and the mask follows the image; the counter goes up by 1 and wraps to 0 once count // 6 exceeds len, so count // 6 stays ≤ len; the animation is unchanged |
| World.Fire.Loop | main.py:218-229 | the new state is `FireStep` of the old one |
| World.Trampoline.constructor | main.py:241-248 | a new trampoline is Idle with both counters 0 (the invariant Idle ⇒ jump_count = 0 holds) |
| World.Pressed | main.py:250-253 | from Idle it enters Jump with the animation restarted; in Jump it changes nothing; only the animation changes; Idle ⇒ jump_count = 0 is kept |
| World.PressedIdempotent | main.py:250-253 | pressing a trampoline twice is pressing it once |
| World.TrampolineStep | main.py:256-273 | the frame and counter as for the fire; Idle stays Idle; in Jump the hold counter goes up, and the trampoline reverts to Idle with counter 0 exactly when it passes fps·0.5, so in Jump it stays ≤ fps·0.5; Idle ⇒ jump_count = 0 is kept |
| World.Trampoline.JumpPlayer | main.py:250-253 | the new state is `Pressed` of the old one; the invariant is kept |
| World.Trampoline.Loop | main.py:256-273 | the new state is `TrampolineStep` of the old one; the invariant is kept |
| World.RestingHeight | main.py:352-359 | where a resetting rock head stops: at most original_y, a whole number of 3-pixel steps above its start height, unmoved when it starts at or above original_y, and above original_y − 3 whenever it starts there |
| World.NextPhase | main.py:333-359 | the successor phase differs from its phase, and it is Idle exactly after Resetting |
| World.PhaseCycle | main.py:333-359 | four successor steps return to the start phase, and two or three do not |
| World.Landing | main.py:309-318 | the first object in list order that is not a fire or rock head and that the probe overlaps; none exactly when there is no such object |
| World.PhaseStep | main.py:329-359 | one phase step: the phase stays or moves to its cyclic successor; x, width and height are kept; the invariant (speed 0 outside Falling, Idle ⇒ y ≤ original_y) is kept; the player is hurt only while falling |
| World.RiseToRest | main.py:352-359 | a resetting trap climbs by 3 per tick to `RestingHeight`, then enters Idle at that height with speed and timer 0 on the next tick |
| World.SmashedWaits | main.py:347-350 | a smashed trap stays smashed and in place while its timer is below reset_time, and starts resetting on the tick the timer reaches it |
| World.RockHead.constructor | main.py:286-306 | a new rock head is Idle at rest, remembers original_y, fall_speed and reset_time, and has the trigger rect (x, bottom, w, 5h) |
| World.RockHeadTick | main.py:320-365 | one rock head loop: the frame `FrameIndex(count, 10, len)` of the current sheet, with the counter wrapping once count // 10 reaches len, and the rect taking that frame's size; the setting and x are kept; the phase stays or moves to its successor; the invariant is kept; the player is unchanged, or hurt once while falling; the motion and the player are those of `PhaseStep` |
| World.RockHead.CheckCollisionWithStaticObjects | main.py:309-318 | lands exactly when it is moving down and `Landing` finds an object; it then stands on that object's top with speed 0; otherwise nothing changes |
| World.RockHead.Loop | main.py:320-361 | the trap and the player change exactly as `RockHeadTick` says; both invariants are kept; the player's health + hit_times is kept, its health never rises, and its sprite, hit_count and jump_count are unchanged |
| World.RockHead.Act | main.py:329-359 | the trap and the player change exactly as `PhaseStep` says |
| World.RockHead.Animate | main.py:321-327 | the frame and counter step as in Loop |
| World.RockHead.Watch | main.py:329-333 | the trigger rect moves below the trap, and the trap starts falling exactly when the player's rect overlaps it |
| World.RockHead.Fall | main.py:335-345 | moves by the old speed and speeds up by fall_speed; hurts the player exactly when the masks overlap and it is moving down; smashes onto the first static object it lands on |
| World.RockHead.Settle | main.py:342-345 | landing on a static object gives Smashed, speed 0 and the "Bottom Hit" animation, standing on that object's top; otherwise the trap keeps falling |
| World.RockHead.Drop | main.py:336-340 | y moves by the old speed; the speed grows by fall_speed; the player is hurt exactly on mask overlap while the speed is positive |
| World.RockHead.Wait | main.py:347-350 | the timer goes up by 1, and resetting starts exactly when it reaches reset_time |
| World.RockHead.Rise | main.py:352-359 | the speed, timer and animation are reset; the trap climbs 3 pixels while below original_y, and otherwise enters Idle |
| World.RockHead.Update | main.py:363-365 | the rect follows the image's size at the same corner, and the mask follows the image |
| World.LandingIgnoresRockHeads | main.py:311 | the static-object check does not depend on any rock head, itself included |
| Collision.Touching | main.py:412-415 | the first object in list order the probe overlaps; none exactly when none overlaps |
| Collision.At | main.py:412-415 | the object at the found index, if any |
| Collision.Collide | main.py:408-419 | returns the first object overlapping the player shifted by dx, or none exactly when none overlaps; the player ends where it started (only redrawn) |
| Collision.VerticalScan | main.py:392-405 | the collided indices are strictly increasing and in range; only rect.y, y_vel, fall_count and jump_count change; the jump count never increases |
| Collision.Pick | main.py:392-405 | the collided objects, in list order |
| Collision.HandleVerticalCollision | main.py:392-405 | the player ends as `VerticalScan` says, and the method returns exactly the objects of its hits |
| Collision.CollideVertically | main.py:393-403 | one object: a collision exactly on mask overlap, which snaps the player to the object's edge and lands it or bumps its head according to dy |
| Collision.ScanMissed | main.py:392-405 | a pass that collides with nothing changes nothing |
| Collision.ScanAtRest | main.py:392-405 | with dy = 0 the pass changes nothing and collides with exactly the overlapping objects (both directions) |
| Collision.ScanLands | main.py:395-397 | moving down, any collision leaves the player standing on the last object collided with, landed |
| Collision.ScanBumps | main.py:398-400 | moving up, y_vel ends negated exactly when the number of collisions is odd, below the last object; the jump budget and fall count are untouched |
| Collision.React | main.py:437-447 | a trampoline bounces the player; a fire or spike hurts it; anything else leaves it unchanged |
| Collision.Dispatch | main.py:437-447 | applies the reaction of the first reactive entry only, and starts the jump of that trampoline alone |
| Collision.Candidates | main.py:435 | the candidate list is [left probe, right probe, vertical hits in order] |
| Collision.Reacting | main.py:437-447 | the first candidate that names a fire, spike or trampoline: the result is such a candidate and no earlier candidate is one; none exactly when no candidate is one |
| Collision.Steer | main.py:429-432 | x_vel and the direction follow the held keys, except toward a side the probe found blocked; right wins over left; the animation counter restarts exactly when a permitted move changes the direction (left then right restarts it twice over, so it ends at 0); nothing else changes |
| Collision.Reacted | main.py:437-447 | the reaction keeps the cooldown invariant and health + hit_times; it never raises health; it moves nothing |
| Collision.Resolve | main.py:422-447 | the whole of handle_move: both probes are `Touching` on the redrawn player shifted by ∓10; the steering is `Steer` with the probes' results; the scan is `VerticalScan` of the steered state with dy = y_vel; the reaction is that of the picked object, or none; x stays put; the jump budget never grows; health never rises |
| Collision.ResolveTarget | main.py:435-447 | the picked object is the one `Reacting` finds over the candidates [left probe, right probe, vertical hits], and the player ends as `Reacted` applies it to the scanned state |
| Collision.HandleMove | main.py:422-447 | the player ends as `Resolve` says; only the trampoline `Resolve` picks starts its jump; every other object is unchanged |
| Collision.Prepare | main.py:425-434 | probes, steering and the vertical pass agree with `Resolve` |
| Collision.ProbeSides | main.py:425-427 | x_vel is zeroed; both probes report the first object overlapping at ∓10 |
| Collision.SteerPlayer | main.py:429-432 | the player is steered as `Steer` says |
| Collision.Respond | main.py:437-447 | the dispatch over the real objects applies the reaction `Reacting` picks over their views |
| Collision.CandidatesAgree | main.py:435-447 | the first reactive object among the candidates is the one `Reacting` finds over their views |
| Camera.ScrollX | main.py:449-459 | the offset moves by x_vel exactly when the camera follows (moving right inside the right dead zone, or left inside the left one), and stays otherwise; it is then clamped at 0, so it is ≥ 0; it never moves against the player |
| Camera.ScrollY | main.py:453-455 | the offset moves by exactly y_vel when the camera follows (moving down inside the bottom dead zone, or up inside the top one), stays otherwise, and is never clamped |
| Camera.FollowingKeepsScreenPosition | main.py:450-453 | while the camera follows a player moving right, the player keeps its place on the screen |
| Level.Spawning | main.py:480-509 | the characters X, D, F, S, s, T and R create an object |
| Level.SpawnAt | main.py:480-509 | X and D create grass and dirt blocks filling the cell; F creates a fire at (x+48, y+32, 16, 32); S an upward spike at (x+24, y+32, 64, 64); s a downward spike at (x, y, 64, 64); T a trampoline at (x+16, y+40, 28, 28); R a rock head at (x, y+40, 42, 42); every other character, P included, creates none |
| Level.RowSpawnsSound | main.py:476-509 | everything a row creates comes from one of its cells |
| Level.RowSpawnsHas | main.py:476-509 | every object-creating cell of a row contributes its object |
| Level.LevelSpawnsSound | main.py:475-509 | everything the grid creates comes from one of its cells |
| Level.LevelSpawnsHas | main.py:475-509 | every object-creating cell of the grid contributes its object |
| Level.RowPlayerCellsSorted | main.py:488-492 | the P cells of a row are listed exactly (both directions) and in order |
| Level.PlayerCellsSorted | main.py:475-492 | the P cells of the grid are listed exactly (both directions) and in row-major order |
| Level.PlayerStartIsLastP | main.py:488-492 | the start cell is a P, every other P comes before it in row-major order (the last P wins), and there is none exactly when the level has no P |
| Level.ScanLevel | main.py:475-509 | returns the row-major object list `LevelSpawns` and the start `PlayerStart` |
| Level.ScanRow | main.py:476-509 | one row's objects, and the start carried over when the row holds no P |
| Level.LevelSpawns | main.py:475-509 | the grid's spawn records are exactly the objects its cells create, and there are none exactly when no cell creates one |
| Level.LevelSpawnsExactly | main.py:475-509 | every record of the row-major scan comes from a cell, every object-creating cell contributes one, and the scan is empty exactly when no cell creates an object |
| Level.PlayerStart | main.py:488-492 | a start cell lies inside the grid and holds a P |
| Level.Columns | main.py:372-375 | m columns of `rows` tiles; the k-th tile is ((k // rows)·w, (k % rows)·h) |
| Level.Tiles | main.py:372-375 | (WIDTH // w + 1) × (HEIGHT // h + 1) positions, column by column: the k-th tile is ((k // rows)·w, (k % rows)·h) with rows = HEIGHT // h + 1 |
| Level.GetBackground | main.py:367-378 | the tiles are `Tiles(w, h)` |
| Level.InColumns | main.py:372-375 | every (i·w, j·h) with i, j in range is a tile |
| Level.TilesCoverWindow | main.py:372-375 | every window pixel lies in some tile |
| Game.JumpKeyAsWritten | main.py:519 | the jump test as written: SPACE as a key, or the event type equal to the UP or W key code |
| Game.OnlySpaceJumpsAsWritten | main.py:519 | as written, inside a key-down event only SPACE passes the test; UP and W never do |
| Game.ArrowAndWIgnoredAsWritten | main.py:514-520 | with the jump test as written and a jump left, a key-down of UP or W leaves the player unchanged, while SPACE jumps |
| Game.JumpKeysJump | main.py:518-520 | with the corrected test and a jump left in the budget, SPACE, UP and W each jump |
| Game.AfterEvents | main.py:514-520 | processing a frame's events keeps jump_count ≤ 2, never lowers it, and changes only y_vel, the animation counter, jump_count and fall_count |
| Game.IgnoredAfterQuit | main.py:514-517 | events after a quit have no effect |
| Game.CreatedValid | main.py:480-509 | every freshly created object satisfies its invariant |
| Game.Create | main.py:480-509 | makes one fresh object as `Creates` says for its spawn record, with its invariant holding |
| Game.Extend | main.py:480-509 | appends one fresh object for a spawn record; the earlier objects are kept, their references stay disjoint, and every object still matches its record |
| Game.Populate | main.py:480-509 | creates one fresh object per spawn record, in order, each as its constructor sets it up |
| Game.SimulatedCostsAtMostOne | main.py:522-526 | a `Simulated` frame from a player in its cooldown invariant with at most two jumps used loses at most one health, moves x by x_vel, and keeps jump_count ≤ 2, hit_count ≤ 2·fps and the cooldown invariant |
| Game.Game.constructor | main.py:488-492 | the player is at (col·96, row·96, 50, 50), and the offsets are x − 500 and y − 400 |
| Game.Game.HandleEvents | main.py:514-520 | the player ends as `AfterEvents` says under the game's jump test, and a quit is reported exactly when the frame holds one |
| Game.Game.UpdateObjects | main.py:524-526 | each object, run once in list order, ends `Advanced` from its old state; the player is unchanged or hurt once; every invariant is kept; health + hit_times is kept |
| Game.Game.StepObject | main.py:525-526 | one object's loop: it ends `Advanced`; a rock head and the player end exactly as `RockHeadTick` says for the player and the objects' views as the step found them; the player is unchanged, or hurt once by a rock head; both invariants are kept |
| Game.Game.Step | main.py:522-526 | the player's step, handle_move and the hazards' loops give a state that is `Simulated` from the old one; every invariant is kept and at most one health is lost; and unless the cooldown was already due to clear this frame (hit with hit_count ≥ 2·fps), health + hit_times is kept, so a hit inside the cooldown costs nothing |
| Game.Game.Move | main.py:523 | handle_move over the real objects: the player ends as `Resolve` says over their views; the trampoline it picks ends `Pressed` and every other object is unchanged |
| Game.Game.Tick | main.py:511-535 | a quit stops the game with the player as `AfterEvents` leaves it and the objects and offsets unchanged; otherwise the state is `Simulated` from the player after its events, both offsets scroll as `ScrollX` and `ScrollY` say (x stays ≥ 0), and the game goes on exactly while health > 0; at most one health is lost; and unless the cooldown was already due to clear this frame (hit with hit_count ≥ 2·fps), health + hit_times is kept, so a hit inside the cooldown costs nothing |
| Game.Game.Interact | main.py:523-526 | handle_move and then the hazards' loops: from the player after its own loop, the state is `Resolved`: the player ends as `Resolve` says, or that hit once by a rock head; the trampoline `Resolve` picks is pressed, and then every object advances one tick (`Advanced`) |
| Game.Game.Advance | main.py:522-535 | the state is `Simulated` from the old one, both offsets scroll, the game goes on exactly while health > 0, and at most one health is lost; and unless the cooldown was already due to clear this frame (hit with hit_count ≥ 2·fps), health + hit_times is kept, so a hit inside the cooldown costs nothing |
| Game.Game.Follow | main.py:528 | the offsets become `ScrollX` and `ScrollY` of the old ones for the player's rect and speeds |
| Game.Game.Play | main.py:511-535 | runs frames until a quit or zero health; no frame before the last one run holds a quit; when it stops early the last frame quit or health reached 0, and when it runs all frames none quit and health is left; at most one health is lost per frame |
| Game.Start | main.py:463-509 | a game exists exactly when the level has a P; it then holds one object per `LevelSpawns` record, each as `Creates` says, the player at (col·96, row·96, 50, 50) of `PlayerStart` with 5 health, the jump test given, and the offsets x − 500 and y − 400 |

## Left out

- Rendering: `draw`, blitting, the heart HUD and `pygame.display`. These are output only.
- Asset loading (`load_sprite_sheets`, `get_block`, `flip`, `pygame.image.load`). The model takes the frame counts and sprite sizes as `Assets`.
- Mask construction and the pixel-level mask test. The model treats the overlap test as an uninterpreted predicate `Assets.overlap`.
- The conversion pygame applies when it adds a fractional y_vel to an integer rect coordinate. It is the parameter `Assets.toPixel`. The fractional scroll offset is kept as a `real`.
- Float rounding of `fall_count / fps` and of `fps * 0.5`. Exact reals stand in for both.
- `read_level_data` (file reading and `strip`). The model starts from the parsed grid.
- `clock.tick` pacing and event polling. A frame's events and held keys are inputs.
- `sys.exit`: it becomes a `false` result from `Tick` and the end of `Play`.
- The source crashes on its first frame when the level has no P, because `player` is still None. `Start` returns `None` for such a level instead.
- main creates each object while scanning. `Start` scans first (`ScanLevel`) and creates the objects afterwards (`Populate`). The result is the same list, because creating an object reads nothing that the scan writes.
- The Block and Spike constructors only load images, so blocks and spikes are plain values with a rect.
- The `self.count = 0` assignment in `hit_head` sets a field nothing reads. It is not modelled.
- World.RiseToRest and World.SmashedWaits: both iterate `PhaseStep` with a fixed player and fixed other objects. This loses nothing, because the Smashed and Resetting phases read neither.
- Game.Game.Tick: reads events under the game's `jumpTest`, chosen at `Start`. `AsWritten` is the test of main.py:519, and `Corrected` is the intended one (see Findings).
- The fire and trampoline counters wrap only once `count // 6` exceeds the frame count. Frame 0 therefore shows for two 6-tick periods in each cycle. This is modelled as written.
- Level.GetBackground: requires a non-empty image. For a zero-size image, main.py:372 raises ZeroDivisionError.
- Game.Game.UpdateObjects and World.Advanced: across the whole pass, a rock head is stated to end as `RockHeadTick` makes it for some player and some view of the objects. The exact player and the views as each earlier loop left them are not named in the contract. For a single object, Game.Game.StepObject states the exact tick. The fire and the trampoline are tied exactly to `FireStep` and `TrampolineStep`.

## Findings

| source | as written | input that shows it | evidently intended | confidence | as-written member | corrected member |
|---|---|---|---|---|---|---|
| main.py:519 | the jump test compares `event.type` (already known to be KEYDOWN) with `K_UP` and `K_w`, so only SPACE can ever jump | a KEYDOWN event with key UP or W, with jump_count 0: the player does not jump | compare `event.key` with `K_UP` and `K_w`, so that UP, W and SPACE all jump | not executed | Game.ArrowAndWIgnoredAsWritten | Game.JumpKeysJump |
