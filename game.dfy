/** The game loop's state as one object: the mode, the player rectangle,
    the enemy and star lists, the three timers, the score, the play time,
    the high score and the two speeds, all overwritten frame by frame.
    Each method is one part of an iteration of the loop and is tied to the
    transition of module Play that describes it. */
module Game {
  import opened Rules
  import opened Passes
  import opened Play

  class GameSession {
    var mode: Mode
    var player: Rect
    var enemies: seq<EnemyCar>
    var stars: seq<Star>
    var lastSpawnTime: nat
    var lastStarTime: nat
    var gameStartTime: nat
    var score: int
    var timePlayed: int
    var highScore: int
    var enemySpeed: int
    var starSpeed: int

    /** The fields as a value. */
    ghost function State(): Session
      reads this
    {
      Session(mode, player, enemies, stars, lastSpawnTime, lastStarTime, gameStartTime,
              score, timePlayed, highScore, enemySpeed, starSpeed)
    }

    ghost predicate Valid()
      reads this
    {
      Inv(State())
    }

    /** The state set up before the loop starts: the menu, the player
        centred near the bottom, nothing spawned, everything zero, enemy
        speed 6 and star speed 4. */
    constructor ()
      ensures State() == Start() && Valid()
    {
      mode := Menu;
      player := Rect(PlayerStartX, PlayerY, PlayerW, PlayerH);
      enemies, stars := [], [];
      lastSpawnTime, lastStarTime, gameStartTime := 0, 0, 0;
      score, timePlayed, highScore := 0, 0, 0;
      enemySpeed, starSpeed := BaseSpeed, InitialStarSpeed;
    }

    /** A RETURN key-down at time `now`. */
    method OnReturn(now: nat)
      requires Valid() && now < Ticks
      modifies this
      ensures State() == PressReturn(old(State()), now) && Valid()
      ensures highScore == old(highScore)
      ensures old(mode) == Menu ==> mode == Playing && score == 0 && enemies == [] && stars == []
      ensures old(mode) == GameOver ==> mode == Menu
      ensures old(mode) == Playing ==> State() == old(State())
    {
      PressReturnPreservesInv(State(), now);
      if mode == Menu {
        player := player.(x := PlayerStartX);
        enemies := [];
        stars := [];
        lastSpawnTime := now;
        lastStarTime := now;
        gameStartTime := now;
        score := 0;
        timePlayed := 0;
        mode := Playing;
      }
      if mode == GameOver {
        mode := Menu;
      }
    }

    /** The held arrow keys: only while playing, left first, then right. */
    method ApplyKeys(left: bool, right: bool)
      requires Valid()
      modifies this`player
      ensures State() == HoldKeys(old(State()), left, right) && Valid()
      ensures player.y == old(player.y) && MinPlayerX <= player.x <= MaxPlayerX
    {
      HoldKeysEffect(State(), left, right);
      if mode == Playing {
        if left && player.x > 0 {
          player := player.(x := player.x - PlayerSpeed);
        }
        if right && player.x + player.w < ScreenWidth {
          player := player.(x := player.x + PlayerSpeed);
        }
      }
    }

    /** The update block at time `now`, with the lanes the random draws
        picked for a new enemy and a new star. While playing, the new values
        are computed by the update block of module Passes and stored back. */
    method Update(now: nat, enemyLane: nat, starLane: nat)
      requires Valid() && now < Ticks && enemyLane < Lanes && starLane < Lanes
      modifies this
      ensures State() == Tick(old(State()), now, enemyLane, starLane) && Valid()
      ensures highScore >= old(highScore) && score >= old(score)
    {
      ghost var s := State();
      if mode == Playing {
        var next := UpdateBlock(Session(mode, player, enemies, stars, lastSpawnTime, lastStarTime,
                                        gameStartTime, score, timePlayed, highScore, enemySpeed, starSpeed),
                                now, enemyLane, starLane);
        timePlayed, enemySpeed, starSpeed := next.timePlayed, next.enemySpeed, next.starSpeed;
        lastSpawnTime, lastStarTime := next.lastSpawnTime, next.lastStarTime;
        mode, highScore, score := next.mode, next.highScore, next.score;
        enemies, stars := next.enemies, next.stars;
      }
      TickPreservesInv(s, now, enemyLane, starLane);
    }

    /** One iteration of the game loop: the RETURN key-downs of this
        frame at their times, then the held keys, then the update. */
    method RunFrame(returnTimes: seq<nat>, left: bool, right: bool, now: nat,
                    enemyLane: nat, starLane: nat)
      requires Valid() && now < Ticks && enemyLane < Lanes && starLane < Lanes
      requires forall i :: 0 <= i < |returnTimes| ==> returnTimes[i] < Ticks
      modifies this
      ensures State() == Frame(old(State()), returnTimes, left, right, now, enemyLane, starLane)
      ensures Valid() && highScore >= old(highScore)
    {
      var i := 0;
      while i < |returnTimes|
        invariant 0 <= i <= |returnTimes|
        invariant Valid() && highScore == old(highScore)
        invariant State() == Presses(old(State()), returnTimes[..i])
      {
        assert returnTimes[..i + 1][..i] == returnTimes[..i];
        OnReturn(returnTimes[i]);
        i := i + 1;
      }
      assert returnTimes[..i] == returnTimes;
      ApplyKeys(left, right);
      Update(now, enemyLane, starLane);
    }
  }
}
