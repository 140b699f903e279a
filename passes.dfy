/** The update block of a PLAYING frame and its four passes over the
    entity lists, each one loop of the game's update block, proved against
    the functions of Rules and Play that describe its result. Each pass
    works on its own copy of a list and hands back the updated list. */
module Passes {
  import opened Rules
  import opened Play

  /** The fall pass: every entry moves down by `speed`; x, width and height
      stay; an entry is deactivated when its new top edge is below the
      screen, and is otherwise left as active as it was. */
  method FallAll(es: seq<Entity>, speed: int) returns (r: seq<Entity>)
    ensures r == Advance(es, speed)
    ensures |r| == |es|
    ensures forall i :: 0 <= i < |es| ==>
      r[i].rect == es[i].rect.(y := es[i].rect.y + speed) &&
      r[i].active == (es[i].active && es[i].rect.y + speed <= ScreenHeight)
  {
    r := es;
    var i := 0;
    while i < |r|
      invariant 0 <= i <= |r| == |es|
      invariant forall k :: 0 <= k < i ==> r[k] == Fall(es[k], speed)
      invariant forall k :: i <= k < |r| ==> r[k] == es[k]
    {
      var moved := r[i].rect.(y := r[i].rect.y + speed);
      var active := r[i].active;
      if moved.y > ScreenHeight {
        active := false;
      }
      r := r[i := Entity(moved, active)];
      i := i + 1;
    }
  }

  /** The enemy collision pass: each enemy overlapping the player ends the
      game and raises the high score to the current score if that is
      higher. However many enemies overlap, the outcome is that of one. */
  method ResolveEnemyHits(player: Rect, es: seq<EnemyCar>, mode: Mode, score: int, highScore: int)
    returns (mode': Mode, highScore': int)
    ensures AnyHit(player, es) ==> mode' == GameOver
    ensures !AnyHit(player, es) ==> mode' == mode && highScore' == highScore
    ensures AnyHit(player, es) ==> highScore' == if score > highScore then score else highScore
  {
    mode', highScore' := mode, highScore;
    var i := 0;
    while i < |es|
      invariant 0 <= i <= |es|
      invariant AnyHit(player, es[..i]) ==> mode' == GameOver
      invariant !AnyHit(player, es[..i]) ==> mode' == mode && highScore' == highScore
      invariant AnyHit(player, es[..i]) ==> highScore' == if score > highScore then score else highScore
    {
      if Intersects(player, es[i].rect) {
        mode' := GameOver;
        if score > highScore' {
          highScore' := score;
        }
      }
      assert es[..i + 1] == es[..i] + [es[i]];
      i := i + 1;
    }
    assert es[..i] == es;
  }

  /** The star pickup pass: every star overlapping the player is
      deactivated and adds 5 to the score; nothing else changes. */
  method CollectStars(player: Rect, ss: seq<Star>, score: int) returns (r: seq<Star>, score': int)
    ensures r == Collect(player, ss)
    ensures score' == score + StarScore * Pickups(player, ss)
    ensures |r| == |ss|
    ensures forall i :: 0 <= i < |ss| ==>
      r[i].rect == ss[i].rect &&
      r[i].active == (ss[i].active && !Intersects(player, ss[i].rect))
  {
    r, score' := ss, score;
    var i := 0;
    while i < |r|
      invariant 0 <= i <= |r| == |ss|
      invariant forall k :: 0 <= k < i ==> r[k] == Pick(player, ss[k])
      invariant forall k :: i <= k < |r| ==> r[k] == ss[k]
      invariant score' == score + StarScore * Pickups(player, ss[..i])
    {
      assert ss[..i + 1][..i] == ss[..i];
      if Intersects(player, r[i].rect) {
        r := r[i := r[i].(active := false)];
        score' := score' + StarScore;
      }
      i := i + 1;
    }
    assert ss[..i] == ss;
  }

  /** Removal of the inactive entries, compacting the list in place the
      way `remove_if` followed by `erase` does: survivors are copied down
      over the gaps and the tail is cut off. */
  method RemoveInactive(es: seq<Entity>) returns (kept: seq<Entity>)
    ensures kept == Purge(es)
    ensures forall e :: e in kept <==> e in es && e.active
  {
    var buf := es;
    var w := 0;
    var i := 0;
    while i < |buf|
      invariant 0 <= w <= i <= |buf| == |es|
      invariant buf[..w] == Purge(es[..i])
      invariant buf[i..] == es[i..]
    {
      assert es[..i + 1] == es[..i] + [es[i]];
      assert buf[i] == es[i];
      if buf[i].active {
        buf := buf[w := buf[i]];
        w := w + 1;
      }
      i := i + 1;
    }
    assert es[..i] == es;
    kept := buf[..w];
    PurgeMembers(es);
  }

  /** The update block of a playing frame, step by step as the game runs
      it: play time and speeds, the two spawn timers, the fall of enemies
      and stars, enemy hits, star pickups, and the purge of both lists. */
  method UpdateBlock(s: Session, now: nat, enemyLane: nat, starLane: nat) returns (r: Session)
    requires s.mode == Playing && enemyLane < Lanes && starLane < Lanes
    ensures r == Tick(s, now, enemyLane, starLane)
  {
    var played := Elapsed(now, s.gameStartTime) / MillisPerSecond;
    var enemySpeed := BaseSpeed + played / SecondsPerSpeedUp;
    var starSpeed := StarBaseSpeed + played / SecondsPerSpeedUp;

    var enemies, lastSpawnTime := s.enemies, s.lastSpawnTime;
    if Elapsed(now, lastSpawnTime) > EnemyInterval {
      enemies := enemies + [NewEnemy(enemyLane)];
      lastSpawnTime := now;
    }
    var stars, lastStarTime := s.stars, s.lastStarTime;
    if Elapsed(now, lastStarTime) > StarInterval {
      stars := stars + [NewStar(starLane)];
      lastStarTime := now;
    }
    SpawnStep(s, now, enemyLane, starLane, enemies, lastSpawnTime, stars, lastStarTime);

    enemies := FallAll(enemies, enemySpeed);
    stars := FallAll(stars, starSpeed);
    var mode, highScore := ResolveEnemyHits(s.player, enemies, s.mode, s.score, s.highScore);
    var score;
    stars, score := CollectStars(s.player, stars, s.score);
    enemies := RemoveInactive(enemies);
    stars := RemoveInactive(stars);

    r := s.(timePlayed := played, enemySpeed := enemySpeed, starSpeed := starSpeed,
            lastSpawnTime := lastSpawnTime, lastStarTime := lastStarTime,
            mode := mode, highScore := highScore, score := score,
            enemies := enemies, stars := stars);
    TickPlaying(s, now, enemyLane, starLane, r);
  }
}
