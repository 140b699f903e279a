# Car Dodging — a verified model of the game logic

This project models the per-frame logic of a small arcade game. The player's
car moves sideways across four lanes at the bottom of a 400 x 600 screen.
Enemy cars and stars fall from the top. An enemy hitting the player ends
the game, and each star picked up is worth 5 points. Both falling speeds
grow by one every five seconds of play.

The game keeps its state in the loop-local variables of its main loop:

- the mode (MENU, PLAYING or GAME_OVER);
- the player rectangle;
- the enemy and star lists;
- three timestamps;
- the score, the play time and the high score;
- the two speeds.

Each iteration of the loop does three things in order:

1. It handles the RETURN key-downs.
2. It applies the held arrow keys.
3. While playing, it runs the update block: difficulty, spawning, falling,
   collisions, pickups and purging.

Modules:

- `Rules` (rules.dfy) holds the constants and the rectangle, entity and mode types. It also holds the overlap test, the 32-bit elapsed-time arithmetic, the speed curve, spawn placement, the per-entity steps (fall, pickup) and `Purge`, the stable filter that keeps active entries. The lemmas about these are there too.
- `Play` (play.dfy) holds the game state as a value (`Session`). Its transition functions specify everything else: `PressReturn`, `HoldKeys`, `Tick` for the update block, and `Frame` for one loop iteration. It also holds the invariant `Inv` and the lemmas about the transitions.
- `Passes` (passes.dfy) has the four loops of the update block as methods proved against the `Rules` functions: fall, enemy hits, star pickups and the `remove_if`/`erase` compaction. It also has `UpdateBlock`, which runs them in the game's order and is proved equal to `Tick`.
- `Game` (game.dfy) has the class `GameSession`. Its fields are the loop variables, and its methods `OnReturn`, `ApplyKeys`, `Update` and `RunFrame` change them in place. Each method is tied to its `Play` transition and keeps `Inv`.

The clock (`SDL_GetTicks`) and the random lane draw (`rand() % 4`) become
parameters: `now < 2^32` and `lane < 4`. Timestamp differences are computed
as the 32-bit unsigned subtraction of the game (`Elapsed`, modulo 2^32), so
a clock wrap behaves as it does in the game.

Three details of the code are kept as written:

- **Movement.** The edge is tested before the 10 px step, so the car reaches x = -5 and x = 355, 5 px past either edge of the screen (`Rules.MoveOvershoot`).
- **Colliding enemies.** An enemy that hits the player is not deactivated, and it stays in the list (`Play.CollidingEnemyStays`).
- **Inactive entries.** The fall and both collision loops run over every entry, active or not. From a valid state, an entry that is inactive after the fall is below the screen, so every entry that overlaps the player is an active one (`Play.HitsAreActive`).

## Model

| member | source | states |
|---|---|---|
| `Rules.Intersects` | main.cpp:140-154 | The overlap test used for both collision loops holds exactly when some pixel lies inside both rectangles, so it is false for an empty rectangle. |
| `Rules.OffScreenMissesPlayer` | main.cpp:128-154 | A rectangle whose top is below the screen (y > 600) never overlaps the player (y 500, height 80). |
| `Rules.Elapsed` | main.cpp:111-122 | The Uint32 difference `now - since` lies in [0, 2^32). It equals the plain difference when there is no wrap, and `now + 2^32 - since` when the clock wrapped. |
| `Rules.TimePlayed` | main.cpp:112 | Whole seconds of play: at most 4294967 (the span of the 32-bit clock). Without a wrap, t is the unique value with t * 1000 <= now - start < (t + 1) * 1000. |
| `Rules.EnemySpeed` | main.cpp:113 | The enemy speed v is at least 6, and (v - 6) * 5 <= seconds < (v - 5) * 5. That is, one more per full 5 seconds. |
| `Rules.StarSpeed` | main.cpp:114 | The star speed v is at least 2, and (v - 2) * 5 <= seconds < (v - 1) * 5. |
| `Rules.SpeedsNonDecreasing` | main.cpp:111-114 | With t = whole seconds since the game started, enemy speed 6 + t/5 and star speed 2 + t/5 never decrease as `now` grows (without a wrap). Enemy speed is always star speed + 4. |
| `Rules.SpeedSchedule` | main.cpp:111-114 | The speed table: enemy speed 6 at 0 s, still 6 at 4 s, 7 at 5 s and 11 at 25 s. Star speed is 2, 3 and 7 at the same times. |
| `Rules.NewEnemy` | main.cpp:117-118 | A new enemy is active, 50x80, at x = 25 + 100 * lane, with its bottom edge on the top of the screen (y + h == 0). |
| `Rules.NewStar` | main.cpp:123-124 | A new star is active, 30x30, at x = 35 + 100 * lane, with its top edge above the screen and its bottom edge inside it. |
| `Rules.Spawn` | main.cpp:116-126 | One interval timer keeps the existing entries in order and appends at most one. When it appends, the new entry is `born` and the timer is set to `now`. Otherwise the timer is unchanged. |
| `Rules.SpawnPlacement` | main.cpp:116-126 | A new enemy is at x in {25, 125, 225, 325}, y = -80, size 50x80. A new star is at x in {35, 135, 235, 335}, y = -20, size 30x30. Both are active. |
| `Rules.SpawnRule` | main.cpp:116-126 | Without a wrap, an entity is appended and its timer set to `now` exactly when `now - last > interval` (strict). Otherwise the list and timer are unchanged, so at most one entity is added per call. |
| `Rules.Fall` | main.cpp:129-131 | One entry moves down by exactly the speed, and x, w and h are kept. It is active afterwards iff it was active and its top edge is not below the screen. |
| `Rules.Advance` | main.cpp:128-138 | The fall of a whole list keeps its length and adds the speed to every y. Afterwards every active entry was active before and is not below the screen. |
| `Rules.Pick` | main.cpp:149-150 | A star keeps its rectangle. It is active afterwards iff it was active and does not overlap the player. |
| `Rules.Collect` | main.cpp:148-154 | The pickup pass keeps the length and every rectangle, and activates nothing. Afterwards no active star overlaps the player. |
| `Rules.Pickups` | main.cpp:148-154 | The number of stars that add 5 to the score is at most the number of stars. |
| `Rules.PickupsBound` | main.cpp:148-154 | The number of stars picked up is at most the number of stars. It is zero exactly when no star overlaps the player. |
| `Rules.Purge` | main.cpp:156-159 | The purge never lengthens a list, and everything it keeps is active. |
| `Rules.PurgeAppend` | main.cpp:156-159 | The purge distributes over concatenation, so kept entries keep their relative order (a stable filter). |
| `Rules.PurgeMembers` | main.cpp:156-159 | An entry is in the purged list exactly when it was in the list and active. |
| `Rules.PurgeAllActive` | main.cpp:156-159 | A list with no inactive entry is left unchanged. |
| `Rules.MoveLeft` | main.cpp:103-104 | Only x changes, by one 10 px step left or not at all. It moves iff the key is held and x > 0. |
| `Rules.MoveRight` | main.cpp:105-106 | Only x changes, by one 10 px step right or not at all. It moves iff the key is held and x + w < 400. |
| `Rules.MovePreservesPlayerOk` | main.cpp:101-107 | Left then right keeps the player in [-5, 355], with x ≡ 5 (mod 10), the grid of 10 px steps from 175. Only x changes. |
| `Rules.MoveOvershoot` | main.cpp:103-106 | The bounds are reached and kept. From x = 5, a left step ends at -5, and a further left step does nothing. From x = 345, a right step ends at 355, and a further right step does nothing. |
| `Play.Start` | main.cpp:56-75 | The state before the first frame is in MENU, has empty lists and satisfies the invariant. |
| `Play.PressReturn` | main.cpp:83-98 | A RETURN key-down never leads to GAME_OVER. It keeps the high score and both speeds. Outside MENU it changes at most the mode. |
| `Play.HoldKeys` | main.cpp:101-107 | The held keys change only the player's x, by -10, 0 or +10 in one frame. |
| `Play.Tick` | main.cpp:110-160 | The update block keeps the player and the start time. It never lowers the score or the high score. Its only mode change is PLAYING to GAME_OVER. |
| `Play.Presses` | main.cpp:79-99 | The RETURN key-downs of a frame keep the high score, and they leave a PLAYING state exactly as it was. |
| `Play.Frame` | main.cpp:77-160 | A loop iteration never lowers the high score, and from PLAYING it never lowers the score. |
| `Passes.FallAll` | main.cpp:128-138 | Every entry's y grows by exactly the speed, and x, w and h are unchanged. An entry is active afterwards iff it was active and its new y <= 600. The result is `Advance`. |
| `Passes.ResolveEnemyHits` | main.cpp:140-146 | If any enemy overlaps the player, the mode becomes GAME_OVER and the high score becomes max(high score, score). Otherwise both are unchanged. Several hits give the same outcome as one. |
| `Passes.CollectStars` | main.cpp:148-154 | Every star overlapping the player is deactivated, and nothing else changes in the list. The score grows by exactly 5 per such star. |
| `Passes.RemoveInactive` | main.cpp:156-159 | The in-place compaction (`remove_if` + `erase`) yields exactly `Purge`: the active entries, in their original order. |
| `Passes.UpdateBlock` | main.cpp:110-160 | Running the update block's steps in the game's order gives exactly `Tick`. |
| `Play.ReturnInMenu` | main.cpp:84-94 | RETURN in MENU sets the mode to PLAYING and x to 175, empties both lists, sets all three timers to `now` and zeroes score and play time. The high score and the speeds are kept. |
| `Play.ReturnElsewhere` | main.cpp:84-97 | RETURN in GAME_OVER changes only the mode, to MENU. In PLAYING it changes nothing. One key-down makes at most one transition. |
| `Play.PressReturnPreservesInv` | main.cpp:83-98 | A RETURN key-down keeps the state invariant. |
| `Play.HoldKeysEffect` | main.cpp:101-107 | The arrow keys act only in PLAYING and change only the player's x. They keep the invariant. |
| `Play.TickPreservesInv` | main.cpp:110-160 | The update block keeps the invariant: every stored enemy and star is active, in a lane, of its fixed size and at y <= 600. The score and high score stay non-negative multiples of 5. The timestamps stay below 2^32. |
| `Play.TickScore` | main.cpp:148-154 | Outside PLAYING the update does nothing. While playing, the score grows by exactly 5 per star under the player, even in a frame that ends the game. The score never decreases, and it grows whenever a star is hit. |
| `Play.TickGameOver` | main.cpp:140-146 | A playing frame ends in GAME_OVER iff some fallen enemy overlaps the player. The high score then becomes max(high score, score before this frame's pickups); otherwise the mode stays PLAYING and the high score stays. The high score never decreases. |
| `Play.TickTimers` | main.cpp:111-126 | Without a wrap, play time is (now - start)/1000, and the speeds are 6 + t/5 and 2 + t/5. Each timer is reset to `now` exactly when its interval is strictly exceeded. Otherwise it keeps its value. |
| `Play.HitsAreActive` | main.cpp:128-154 | From a valid state, any fallen enemy overlaps the player iff an active one does, and every fallen star that overlaps the player is active. So testing every entry without its active flag gives the same result as testing the active ones. |
| `Play.CollidingEnemyStays` | main.cpp:140-159 | An enemy that hits the player is not deactivated by the hit. If it is still on screen, it stays in the list after the purge. |
| `Play.NoStarLeftUnderPlayer` | main.cpp:148-159 | After a playing frame, no stored star overlaps the player. |
| `Play.PressesMonotone` | main.cpp:79-98 | The RETURN key-downs of a frame never change the high score and keep the invariant. A single key-down outside MENU keeps the score. |
| `Play.FrameKeepsInv` | main.cpp:77-160 | A whole loop iteration (events, keys, update) keeps the invariant and never lowers the high score. |
| `Game.GameSession.constructor` | main.cpp:56-75 | The initial state: MENU, player at (175, 500) of size 50x80, empty lists, zero timers, score, play time and high score, enemy speed 6 and star speed 4. |
| `Game.GameSession.OnReturn` | main.cpp:83-98 | The fields change exactly as `PressReturn` says, and the invariant is kept. |
| `Game.GameSession.ApplyKeys` | main.cpp:101-107 | Only the player changes, exactly as `HoldKeys` says. x stays in [-5, 355]. |
| `Game.GameSession.Update` | main.cpp:110-160 | The fields change exactly as `Tick` says, and the invariant is kept. The score and high score never decrease. |
| `Game.GameSession.RunFrame` | main.cpp:77-160 | One loop iteration changes the fields exactly as `Frame` says. It keeps the invariant and never lowers the high score. |

## Left out

- Library setup, resource loading, the fatal check on missing resources and teardown are left out. They are I/O with no game logic.
- Rendering is left out: background, sprites, the score, time and high-score text, and the menu and game-over screens. These are draw calls only.
- Audio is left out. The background music and the crash and star sounds are library calls, so the model records no sound events.
- The quit event, the `running` flag and the end-of-frame delay are left out. A loop iteration is modelled from its inputs: the RETURN key-down times, the held arrow keys, the time `now` and the two lanes. Key-downs of other keys are ignored by the game, and the model does not list them.
- `SDL_GetTicks` and `rand() % 4` are foreign calls, so the model takes `now` (below 2^32) and the two lanes (0..3) as parameters.
- `Play.PressReturn` sets the three timers from one `now`. The game reads the clock three times in a row there, so its timers may differ by a millisecond.
- `SDL_HasIntersection` is a foreign call. `Rules.Intersects` states its meaning instead: both rectangles non-empty and a strict positive-area overlap on both axes. The model does not verify the library itself.
- 32-bit `int` overflow of the score and of entity y coordinates is not modelled. The model uses unbounded integers, and the score would need over 400 million stars to overflow.
- `Game.GameSession.Update`: the update block's new values are computed on a copy of the state (`Passes.UpdateBlock`) and then stored back into the fields. The game updates the variables and vectors in place. Nothing else holds a reference to them, so only the intermediate in-place steps are not modelled.
