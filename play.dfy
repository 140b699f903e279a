/** The game's state as a value and the transitions of one frame: the
    RETURN key, the held arrow keys, and the PLAYING update block. These
    functions specify the methods of the session class in module Game, and
    the lemmas here state what the game promises about them. */
module Play {
  import opened Rules

  /** The loop-local variables of the game loop. Timestamps are 32-bit
      unsigned tick counts. */
  datatype Session = Session(
    mode: Mode,
    player: Rect,
    enemies: seq<EnemyCar>,
    stars: seq<Star>,
    lastSpawnTime: nat,
    lastStarTime: nat,
    gameStartTime: nat,
    score: int,
    timePlayed: int,
    highScore: int,
    enemySpeed: int,
    starSpeed: int)

  /** The state before the first frame: the menu, nothing on screen, the
      invariant already holding. */
  function Start(): (s: Session)
    ensures Inv(s) && s.mode == Menu && s.enemies == [] && s.stars == []
  {
    Session(Menu, Rect(PlayerStartX, PlayerY, PlayerW, PlayerH), [], [], 0, 0, 0, 0, 0, 0,
            BaseSpeed, InitialStarSpeed)
  }

  /** What holds of the state between frames. */
  predicate Inv(s: Session) {
    PlayerOk(s.player) &&
    s.score >= 0 && s.score % StarScore == 0 &&
    s.highScore >= 0 && s.highScore % StarScore == 0 &&
    s.lastSpawnTime < Ticks && s.lastStarTime < Ticks && s.gameStartTime < Ticks &&
    (forall e :: e in s.enemies ==> Parked(e, EnemyOffset, EnemyW, EnemyH)) &&
    (forall st :: st in s.stars ==> Parked(st, StarOffset, StarSize, StarSize))
  }

  // ---------------------------------------------------------------------
  // Transitions
  // ---------------------------------------------------------------------

  /** A RETURN key-down. The MENU test comes first and the GAME_OVER test
      second, each on the mode as it is at that point. */
  function PressReturn(s: Session, now: nat): (r: Session)
    ensures r.mode != GameOver
    ensures r.highScore == s.highScore && r.enemySpeed == s.enemySpeed && r.starSpeed == s.starSpeed
    ensures s.mode != Menu ==> r == s.(mode := r.mode)
  {
    var s1 :=
      if s.mode == Menu then
        s.(mode := Playing, player := s.player.(x := PlayerStartX), enemies := [], stars := [],
           lastSpawnTime := now, lastStarTime := now, gameStartTime := now,
           score := 0, timePlayed := 0)
      else s;
    if s1.mode == GameOver then s1.(mode := Menu) else s1
  }

  /** The held arrow keys, applied only while playing: left, then right. */
  function HoldKeys(s: Session, left: bool, right: bool): (r: Session)
    ensures r == s.(player := s.player.(x := r.player.x))
    ensures r.player.x - s.player.x in {-PlayerSpeed, 0, PlayerSpeed}
  {
    if s.mode == Playing then s.(player := MoveRight(MoveLeft(s.player, left), right)) else s
  }

  /** The enemy list after this frame's spawn and fall. */
  function FallenEnemies(s: Session, now: nat, enemyLane: nat): seq<EnemyCar>
    requires enemyLane < Lanes
  {
    var spawned := Spawn(s.enemies, s.lastSpawnTime, now, EnemyInterval, NewEnemy(enemyLane)).0;
    Advance(spawned, EnemySpeed(TimePlayed(now, s.gameStartTime)))
  }

  /** The star list after this frame's spawn and fall. */
  function FallenStars(s: Session, now: nat, starLane: nat): seq<Star>
    requires starLane < Lanes
  {
    var spawned := Spawn(s.stars, s.lastStarTime, now, StarInterval, NewStar(starLane)).0;
    Advance(spawned, StarSpeed(TimePlayed(now, s.gameStartTime)))
  }

  /** The update block, which runs only while playing: difficulty, spawn,
      fall, enemy hits, star pickups, purge. */
  function Tick(s: Session, now: nat, enemyLane: nat, starLane: nat): (r: Session)
    requires enemyLane < Lanes && starLane < Lanes
    ensures r.player == s.player && r.gameStartTime == s.gameStartTime
    ensures r.score >= s.score && r.highScore >= s.highScore
    ensures r.mode == s.mode || (s.mode == Playing && r.mode == GameOver)
  {
    if s.mode != Playing then s
    else
      var t := TimePlayed(now, s.gameStartTime);
      var fallenEnemies := FallenEnemies(s, now, enemyLane);
      var fallenStars := FallenStars(s, now, starLane);
      var hit := AnyHit(s.player, fallenEnemies);
      s.(timePlayed := t,
         enemySpeed := EnemySpeed(t),
         starSpeed := StarSpeed(t),
         lastSpawnTime := Spawn(s.enemies, s.lastSpawnTime, now, EnemyInterval, NewEnemy(enemyLane)).1,
         lastStarTime := Spawn(s.stars, s.lastStarTime, now, StarInterval, NewStar(starLane)).1,
         mode := if hit then GameOver else s.mode,
         highScore := if hit && s.score > s.highScore then s.score else s.highScore,
         score := s.score + StarScore * Pickups(s.player, fallenStars),
         enemies := Purge(fallenEnemies),
         stars := Purge(Collect(s.player, fallenStars)))
  }

  /** The RETURN key-downs of one frame, in order, each at its own time. */
  function Presses(s: Session, times: seq<nat>): (r: Session)
    ensures r.highScore == s.highScore
    ensures s.mode == Playing ==> r == s
  {
    if times == [] then s
    else PressReturn(Presses(s, times[..|times| - 1]), times[|times| - 1])
  }

  /** One iteration of the game loop: events, held keys, update. */
  function Frame(s: Session, times: seq<nat>, left: bool, right: bool, now: nat,
                 enemyLane: nat, starLane: nat): (r: Session)
    requires enemyLane < Lanes && starLane < Lanes
    ensures r.highScore >= s.highScore
    ensures s.mode == Playing ==> r.score >= s.score
  {
    Tick(HoldKeys(Presses(s, times), left, right), now, enemyLane, starLane)
  }

  // ---------------------------------------------------------------------
  // RETURN key
  // ---------------------------------------------------------------------

  /** From the menu, RETURN starts a fresh game: player centred, lists
      emptied, the three timers restarted at `now`, score and time zeroed;
      the high score and speeds are kept. */
  lemma ReturnInMenu(s: Session, now: nat)
    requires s.mode == Menu
    ensures var r := PressReturn(s, now);
      r.mode == Playing && r.player == s.player.(x := PlayerStartX) &&
      r.enemies == [] && r.stars == [] &&
      r.lastSpawnTime == now && r.lastStarTime == now && r.gameStartTime == now &&
      r.score == 0 && r.timePlayed == 0 &&
      r.highScore == s.highScore && r.enemySpeed == s.enemySpeed && r.starSpeed == s.starSpeed
  {
  }

  /** Outside the menu, RETURN only takes GAME_OVER back to MENU, and one
      key-down makes at most one transition. */
  lemma ReturnElsewhere(s: Session, now: nat)
    requires s.mode != Menu
    ensures s.mode == GameOver ==> PressReturn(s, now) == s.(mode := Menu)
    ensures s.mode == Playing ==> PressReturn(s, now) == s
    ensures PressReturn(s, now).mode == if s.mode == GameOver then Menu else Playing
  {
  }

  lemma PressReturnPreservesInv(s: Session, now: nat)
    requires Inv(s) && now < Ticks
    ensures Inv(PressReturn(s, now))
  {
  }

  // ---------------------------------------------------------------------
  // Movement
  // ---------------------------------------------------------------------

  /** Keys move the player only while playing, only along x, and keep the
      player within [-5, 355] on the grid of 10 px steps from 175. */
  lemma HoldKeysEffect(s: Session, left: bool, right: bool)
    requires Inv(s)
    ensures Inv(HoldKeys(s, left, right))
    ensures s.mode != Playing ==> HoldKeys(s, left, right) == s
    ensures HoldKeys(s, left, right) == s.(player := s.player.(x := HoldKeys(s, left, right).player.x))
  {
    MovePreservesPlayerOk(s.player, left, right);
  }

  // ---------------------------------------------------------------------
  // Update block
  // ---------------------------------------------------------------------

  /** The update block keeps the invariant: every stored enemy and star is
      active, in a lane, of its size, and not below the screen. */
  lemma TickPreservesInv(s: Session, now: nat, enemyLane: nat, starLane: nat)
    requires Inv(s) && now < Ticks && enemyLane < Lanes && starLane < Lanes
    ensures Inv(Tick(s, now, enemyLane, starLane))
  {
    if s.mode == Playing {
      EnemiesStayParked(s, now, enemyLane);
      StarsStayParked(s, now, starLane);
    }
  }

  lemma EnemiesStayParked(s: Session, now: nat, enemyLane: nat)
    requires Inv(s) && enemyLane < Lanes
    ensures forall e :: e in Purge(FallenEnemies(s, now, enemyLane)) ==> Parked(e, EnemyOffset, EnemyW, EnemyH)
  {
    var spawned := Spawn(s.enemies, s.lastSpawnTime, now, EnemyInterval, NewEnemy(enemyLane)).0;
    AdvanceSettles(spawned, EnemySpeed(TimePlayed(now, s.gameStartTime)), EnemyOffset, EnemyW, EnemyH);
    PurgeParks(FallenEnemies(s, now, enemyLane), EnemyOffset, EnemyW, EnemyH);
  }

  lemma StarsStayParked(s: Session, now: nat, starLane: nat)
    requires Inv(s) && starLane < Lanes
    ensures forall st :: st in Purge(Collect(s.player, FallenStars(s, now, starLane))) ==>
      Parked(st, StarOffset, StarSize, StarSize)
  {
    var spawned := Spawn(s.stars, s.lastStarTime, now, StarInterval, NewStar(starLane)).0;
    AdvanceSettles(spawned, StarSpeed(TimePlayed(now, s.gameStartTime)), StarOffset, StarSize, StarSize);
    CollectKeepsSettled(s.player, FallenStars(s, now, starLane), StarOffset, StarSize, StarSize);
    PurgeParks(Collect(s.player, FallenStars(s, now, starLane)), StarOffset, StarSize, StarSize);
  }

  /** The spawn step of the update block, as the session performs it. */
  lemma SpawnStep(s: Session, now: nat, enemyLane: nat, starLane: nat,
                  enemies: seq<EnemyCar>, lastSpawnTime: nat, stars: seq<Star>, lastStarTime: nat)
    requires enemyLane < Lanes && starLane < Lanes
    requires (enemies, lastSpawnTime) ==
      (if Elapsed(now, s.lastSpawnTime) > EnemyInterval then (s.enemies + [NewEnemy(enemyLane)], now)
       else (s.enemies, s.lastSpawnTime))
    requires (stars, lastStarTime) ==
      (if Elapsed(now, s.lastStarTime) > StarInterval then (s.stars + [NewStar(starLane)], now)
       else (s.stars, s.lastStarTime))
    ensures Advance(enemies, EnemySpeed(TimePlayed(now, s.gameStartTime))) == FallenEnemies(s, now, enemyLane)
    ensures Advance(stars, StarSpeed(TimePlayed(now, s.gameStartTime))) == FallenStars(s, now, starLane)
  {
  }

  /** The update block of a playing frame, component by component. */
  lemma TickPlaying(s: Session, now: nat, enemyLane: nat, starLane: nat, r: Session)
    requires s.mode == Playing && enemyLane < Lanes && starLane < Lanes
    requires r.player == s.player && r.gameStartTime == s.gameStartTime
    requires r.timePlayed == TimePlayed(now, s.gameStartTime)
    requires r.enemySpeed == EnemySpeed(r.timePlayed) && r.starSpeed == StarSpeed(r.timePlayed)
    requires r.lastSpawnTime == Spawn(s.enemies, s.lastSpawnTime, now, EnemyInterval, NewEnemy(enemyLane)).1
    requires r.lastStarTime == Spawn(s.stars, s.lastStarTime, now, StarInterval, NewStar(starLane)).1
    requires r.mode == if AnyHit(s.player, FallenEnemies(s, now, enemyLane)) then GameOver else s.mode
    requires r.highScore ==
      if AnyHit(s.player, FallenEnemies(s, now, enemyLane)) && s.score > s.highScore then s.score else s.highScore
    requires r.score == s.score + StarScore * Pickups(s.player, FallenStars(s, now, starLane))
    requires r.enemies == Purge(FallenEnemies(s, now, enemyLane))
    requires r.stars == Purge(Collect(s.player, FallenStars(s, now, starLane)))
    ensures Tick(s, now, enemyLane, starLane) == r
  {
  }

  /** The update block does nothing outside PLAYING. While playing, the
      score grows by exactly 5 per star under the player, whether or not the
      frame ends the game, and never decreases. */
  lemma TickScore(s: Session, now: nat, enemyLane: nat, starLane: nat)
    requires enemyLane < Lanes && starLane < Lanes
    ensures s.mode != Playing ==> Tick(s, now, enemyLane, starLane) == s
    ensures s.mode == Playing ==>
      Tick(s, now, enemyLane, starLane).score == s.score + 5 * Pickups(s.player, FallenStars(s, now, starLane))
    ensures Tick(s, now, enemyLane, starLane).score >= s.score
    ensures s.mode == Playing && AnyHit(s.player, FallenStars(s, now, starLane)) ==>
      Tick(s, now, enemyLane, starLane).score > s.score
  {
    PickupsBound(s.player, FallenStars(s, now, starLane));
  }

  /** A playing frame ends the game exactly when some enemy, after falling,
      overlaps the player; the high score then becomes the larger of itself
      and the score before this frame's pickups, and otherwise stays. */
  lemma TickGameOver(s: Session, now: nat, enemyLane: nat, starLane: nat)
    requires s.mode == Playing && enemyLane < Lanes && starLane < Lanes
    ensures var r := Tick(s, now, enemyLane, starLane);
      (r.mode == GameOver <==> AnyHit(s.player, FallenEnemies(s, now, enemyLane))) &&
      (r.mode != GameOver ==> r.mode == Playing && r.highScore == s.highScore) &&
      (r.mode == GameOver ==> r.highScore == if s.score > s.highScore then s.score else s.highScore) &&
      r.highScore >= s.highScore
  {
  }

  /** Speeds and the spawn rule as the update block applies them, when the
      clock has not wrapped since the stored timestamps. */
  lemma TickTimers(s: Session, now: nat, enemyLane: nat, starLane: nat)
    requires s.mode == Playing && enemyLane < Lanes && starLane < Lanes
    requires s.gameStartTime <= now && s.lastSpawnTime <= now && s.lastStarTime <= now && now < Ticks
    ensures var r := Tick(s, now, enemyLane, starLane);
      r.timePlayed == (now - s.gameStartTime) / 1000 &&
      r.enemySpeed == 6 + r.timePlayed / 5 && r.starSpeed == 2 + r.timePlayed / 5 &&
      (now - s.lastSpawnTime > 1000 <==> r.lastSpawnTime == now && r.lastSpawnTime != s.lastSpawnTime) &&
      (now - s.lastStarTime > 3000 <==> r.lastStarTime == now && r.lastStarTime != s.lastStarTime) &&
      (now - s.lastSpawnTime <= 1000 ==> r.lastSpawnTime == s.lastSpawnTime) &&
      (now - s.lastStarTime <= 3000 ==> r.lastStarTime == s.lastStarTime)
  {
  }

  /** Both collision passes test every entry, active or not. That changes
      nothing: from a valid state, every entry that is inactive after the
      fall is below the screen, so each entry that overlaps the player is
      an active one. */
  lemma HitsAreActive(s: Session, now: nat, enemyLane: nat, starLane: nat)
    requires Inv(s) && enemyLane < Lanes && starLane < Lanes
    ensures var es := FallenEnemies(s, now, enemyLane);
      AnyHit(s.player, es) <==> exists i :: 0 <= i < |es| && es[i].active && Intersects(s.player, es[i].rect)
    ensures var ss := FallenStars(s, now, starLane);
      forall i :: 0 <= i < |ss| && Intersects(s.player, ss[i].rect) ==> ss[i].active
  {
    SpawnPlacement(enemyLane);
    SpawnPlacement(starLane);
    var es := FallenEnemies(s, now, enemyLane);
    var spawnedEnemies := Spawn(s.enemies, s.lastSpawnTime, now, EnemyInterval, NewEnemy(enemyLane)).0;
    forall i | 0 <= i < |es| && Intersects(s.player, es[i].rect) ensures es[i].active {
      assert spawnedEnemies[i] in spawnedEnemies;
    }
    var ss := FallenStars(s, now, starLane);
    var spawnedStars := Spawn(s.stars, s.lastStarTime, now, StarInterval, NewStar(starLane)).0;
    forall i | 0 <= i < |ss| && Intersects(s.player, ss[i].rect) ensures ss[i].active {
      assert spawnedStars[i] in spawnedStars;
    }
  }

  /** An enemy that hits the player is not removed by the hit: if it is
      still on screen it stays in the list after the purge. */
  lemma CollidingEnemyStays(s: Session, now: nat, enemyLane: nat, starLane: nat, e: EnemyCar)
    requires s.mode == Playing && enemyLane < Lanes && starLane < Lanes
    requires e in FallenEnemies(s, now, enemyLane) && e.active && Intersects(s.player, e.rect)
    ensures e in Tick(s, now, enemyLane, starLane).enemies
    ensures Tick(s, now, enemyLane, starLane).mode == GameOver
  {
    PurgeMembers(FallenEnemies(s, now, enemyLane));
  }

  /** After a playing frame no stored star overlaps the player: each one
      that did was picked up and purged. */
  lemma NoStarLeftUnderPlayer(s: Session, now: nat, enemyLane: nat, starLane: nat)
    requires s.mode == Playing && enemyLane < Lanes && starLane < Lanes
    ensures forall st :: st in Tick(s, now, enemyLane, starLane).stars ==> !Intersects(s.player, st.rect)
  {
    var collected := Collect(s.player, FallenStars(s, now, starLane));
    PurgeMembers(collected);
    forall st | st in Purge(collected) ensures !Intersects(s.player, st.rect) {
      var i :| 0 <= i < |collected| && collected[i] == st;
    }
  }

  // ---------------------------------------------------------------------
  // Whole frames
  // ---------------------------------------------------------------------

  /** No transition lowers the high score, and the score only drops when
      RETURN starts a new game from the menu. */
  lemma {:induction false} PressesMonotone(s: Session, times: seq<nat>)
    ensures Presses(s, times).highScore == s.highScore
    ensures (forall i :: 0 <= i < |times| ==> times[i] < Ticks) && Inv(s) ==> Inv(Presses(s, times))
    ensures s.mode != Menu && |times| <= 1 ==> Presses(s, times).score == s.score
  {
    if times != [] {
      var init := times[..|times| - 1];
      PressesMonotone(s, init);
      if (forall i :: 0 <= i < |times| ==> times[i] < Ticks) && Inv(s) {
        assert forall i :: 0 <= i < |init| ==> init[i] < Ticks by {
          forall i | 0 <= i < |init| ensures init[i] < Ticks {
            assert init[i] == times[i];
          }
        }
        PressReturnPreservesInv(Presses(s, init), times[|times| - 1]);
      }
    }
  }

  /** A whole frame keeps the invariant and never lowers the high score. */
  lemma FrameKeepsInv(s: Session, times: seq<nat>, left: bool, right: bool, now: nat,
                      enemyLane: nat, starLane: nat)
    requires Inv(s) && now < Ticks && enemyLane < Lanes && starLane < Lanes
    requires forall i :: 0 <= i < |times| ==> times[i] < Ticks
    ensures Inv(Frame(s, times, left, right, now, enemyLane, starLane))
    ensures Frame(s, times, left, right, now, enemyLane, starLane).highScore >= s.highScore
  {
    PressesMonotone(s, times);
    var keyed := HoldKeys(Presses(s, times), left, right);
    HoldKeysEffect(Presses(s, times), left, right);
    TickPreservesInv(keyed, now, enemyLane, starLane);
    if keyed.mode == Playing {
      TickGameOver(keyed, now, enemyLane, starLane);
    }
  }
}
