/** The rules of the car-dodging game: playfield constants, rectangles and
    the overlap test, the difficulty curve, spawn placement, and the
    per-entity steps of one frame (fall, pickup, purge). */
module Rules {

  // ---------------------------------------------------------------------
  // Constants
  // ---------------------------------------------------------------------

  /** Playfield size and lane width, in pixels. */
  const ScreenWidth: int := 400
  const ScreenHeight: int := 600
  const LaneWidth: int := 100
  const Lanes: nat := 4

  /** The player's rectangle: starts centred, sits 100 px above the bottom. */
  const PlayerStartX: int := ScreenWidth / 2 - 25
  const PlayerY: int := ScreenHeight - 100
  const PlayerW: int := 50
  const PlayerH: int := 80
  /** Lateral step per frame while a direction key is held. */
  const PlayerSpeed: int := 10
  /** Extreme x positions the player reaches: the edge guard is tested
      before the step, so one step may cross the edge by 5 px. */
  const MinPlayerX: int := -5
  const MaxPlayerX: int := 355

  /** Difficulty: both speeds gain 1 every 5 whole seconds of play. */
  const BaseSpeed: int := 6
  const StarBaseSpeed: int := 2
  const InitialStarSpeed: int := 4
  const SecondsPerSpeedUp: nat := 5
  const MillisPerSecond: nat := 1000

  /** Spawn intervals in milliseconds, and where new entities appear. */
  const EnemyInterval: nat := 1000
  const StarInterval: nat := 3000
  const EnemyOffset: int := 25
  const EnemyTop: int := -80
  const EnemyW: int := 50
  const EnemyH: int := 80
  const StarOffset: int := 35
  const StarTop: int := -20
  const StarSize: int := 30

  /** Points for each star picked up. */
  const StarScore: int := 5

  /** Timestamps are 32-bit unsigned millisecond counts. */
  const Ticks: nat := 0x1_0000_0000

  // ---------------------------------------------------------------------
  // Entities
  // ---------------------------------------------------------------------

  datatype Rect = Rect(x: int, y: int, w: int, h: int)

  /** An enemy car or a star: a rectangle and a flag cleared when the
      entity is to be removed at the end of the frame. */
  datatype Entity = Entity(rect: Rect, active: bool)

  type EnemyCar = Entity
  type Star = Entity

  datatype Mode = Menu | Playing | GameOver

  /** Pixel (x, y) lies inside `r`. */
  predicate Covers(r: Rect, x: int, y: int) {
    r.x <= x < r.x + r.w && r.y <= y < r.y + r.h
  }

  /** The overlap test used for collisions: both rectangles non-empty and
      a positive-area overlap on both axes. Equivalently, some pixel lies
      inside both rectangles. */
  predicate Intersects(a: Rect, b: Rect)
    ensures Intersects(a, b) <==> exists x, y :: Covers(a, x, y) && Covers(b, x, y)
  {
    var x := if a.x < b.x then b.x else a.x;
    var y := if a.y < b.y then b.y else a.y;
    assert a.w > 0 && a.h > 0 && b.w > 0 && b.h > 0 &&
           a.x < b.x + b.w && b.x < a.x + a.w && a.y < b.y + b.h && b.y < a.y + a.h
           ==> Covers(a, x, y) && Covers(b, x, y);
    a.w > 0 && a.h > 0 && b.w > 0 && b.h > 0 &&
    a.x < b.x + b.w && b.x < a.x + a.w &&
    a.y < b.y + b.h && b.y < a.y + a.h
  }

  /** A rectangle entirely below the screen never touches the player. */
  lemma OffScreenMissesPlayer(player: Rect, r: Rect)
    requires player.y == PlayerY && player.h == PlayerH
    requires r.y > ScreenHeight
    ensures !Intersects(player, r)
  {
  }

  // ---------------------------------------------------------------------
  // Time and difficulty
  // ---------------------------------------------------------------------

  /** `now - since` computed on 32-bit unsigned values, which wraps. */
  function Elapsed(now: nat, since: nat): (d: nat)
    ensures d < Ticks
    ensures since <= now < since + Ticks ==> d == now - since
    ensures now < since < now + Ticks ==> d == now + Ticks - since
  {
    (now - since) % Ticks
  }

  /** Whole seconds since the game started; at most 4294967, the span of
      the 32-bit millisecond clock. */
  function TimePlayed(now: nat, start: nat): (t: nat)
    ensures t <= (Ticks - 1) / MillisPerSecond
    ensures start <= now < start + Ticks ==>
      t * MillisPerSecond <= now - start < (t + 1) * MillisPerSecond
  {
    Elapsed(now, start) / MillisPerSecond
  }

  /** Enemy speed after `seconds` of play: 6, plus one per full 5 s. */
  function EnemySpeed(seconds: nat): (v: int)
    ensures v >= BaseSpeed
    ensures (v - BaseSpeed) * SecondsPerSpeedUp <= seconds < (v - BaseSpeed + 1) * SecondsPerSpeedUp
  {
    BaseSpeed + seconds / SecondsPerSpeedUp
  }

  /** Star speed after `seconds` of play: 2, plus one per full 5 s. */
  function StarSpeed(seconds: nat): (v: int)
    ensures v >= StarBaseSpeed
    ensures (v - StarBaseSpeed) * SecondsPerSpeedUp <= seconds < (v - StarBaseSpeed + 1) * SecondsPerSpeedUp
  {
    StarBaseSpeed + seconds / SecondsPerSpeedUp
  }

  /** Both speeds never decrease as the clock advances (within one wrap of
      the 32-bit clock), and enemies always fall 4 px per frame faster. */
  lemma SpeedsNonDecreasing(start: nat, now1: nat, now2: nat)
    requires start <= now1 <= now2 < start + Ticks
    ensures EnemySpeed(TimePlayed(now1, start)) <= EnemySpeed(TimePlayed(now2, start))
    ensures StarSpeed(TimePlayed(now1, start)) <= StarSpeed(TimePlayed(now2, start))
    ensures EnemySpeed(TimePlayed(now2, start)) == StarSpeed(TimePlayed(now2, start)) + 4
  {
  }

  /** The speed table: 6 at 0 s, still 6 at 4 s, 7 at 5 s, 11 at 25 s. */
  lemma SpeedSchedule()
    ensures EnemySpeed(0) == 6 && EnemySpeed(4) == 6
    ensures EnemySpeed(5) == 7 && EnemySpeed(25) == 11
    ensures StarSpeed(0) == 2 && StarSpeed(5) == 3 && StarSpeed(25) == 7
  {
  }

  // ---------------------------------------------------------------------
  // Spawning
  // ---------------------------------------------------------------------

  /** `x` is the left edge of an entity placed in one of the lanes. */
  predicate OnLane(x: int, offset: int) {
    offset <= x < offset + Lanes as int * LaneWidth && (x - offset) % LaneWidth == 0
  }

  /** An entity of the given size standing in a lane. */
  predicate Placed(r: Rect, offset: int, w: int, h: int) {
    OnLane(r.x, offset) && r.w == w && r.h == h
  }

  /** A new enemy in `lane`, active, its bottom edge on the top of the screen. */
  function NewEnemy(lane: nat): (e: EnemyCar)
    requires lane < Lanes
    ensures e.active && Placed(e.rect, EnemyOffset, EnemyW, EnemyH)
    ensures e.rect.y + e.rect.h == 0
    ensures e.rect.x - EnemyOffset == lane * LaneWidth
  {
    Entity(Rect(lane * LaneWidth + EnemyOffset, EnemyTop, EnemyW, EnemyH), true)
  }

  /** A new star in `lane`, active, its top edge above the screen. */
  function NewStar(lane: nat): (st: Star)
    requires lane < Lanes
    ensures st.active && Placed(st.rect, StarOffset, StarSize, StarSize)
    ensures st.rect.y < 0 < st.rect.y + st.rect.h
    ensures st.rect.x - StarOffset == lane * LaneWidth
  {
    Entity(Rect(lane * LaneWidth + StarOffset, StarTop, StarSize, StarSize), true)
  }

  /** New entities appear just above the screen in one of exactly four
      columns, active, with their fixed size. */
  lemma SpawnPlacement(lane: nat)
    requires lane < Lanes
    ensures NewEnemy(lane).rect.x in {25, 125, 225, 325}
    ensures NewStar(lane).rect.x in {35, 135, 235, 335}
    ensures NewEnemy(lane).active && NewStar(lane).active
    ensures Placed(NewEnemy(lane).rect, EnemyOffset, EnemyW, EnemyH)
    ensures Placed(NewStar(lane).rect, StarOffset, StarSize, StarSize)
    ensures NewEnemy(lane).rect.y == EnemyTop && NewStar(lane).rect.y == StarTop
  {
  }

  /** One interval timer: when more than `interval` ms (32-bit difference)
      have passed since `last`, `born` is appended and the timer restarts. */
  function Spawn(es: seq<Entity>, last: nat, now: nat, interval: nat, born: Entity): (r: (seq<Entity>, nat))
    ensures |es| <= |r.0| <= |es| + 1 && r.0[..|es|] == es
    ensures |r.0| == |es| + 1 ==> r.0[|es|] == born && r.1 == now
    ensures |r.0| == |es| ==> r.1 == last
  {
    if Elapsed(now, last) > interval then (es + [born], now) else (es, last)
  }

  /** Without wrap-around, a spawn happens exactly when strictly more than
      `interval` ms have passed; at most one entity is added per call. */
  lemma SpawnRule(es: seq<Entity>, last: nat, now: nat, interval: nat, born: Entity)
    requires last <= now < Ticks
    ensures now - last > interval ==> Spawn(es, last, now, interval, born) == (es + [born], now)
    ensures now - last <= interval ==> Spawn(es, last, now, interval, born) == (es, last)
  {
  }

  // ---------------------------------------------------------------------
  // Per-entity steps of a frame
  // ---------------------------------------------------------------------

  /** Move one entity down by `speed`; it is deactivated once its top edge
      is below the screen. */
  function Fall(e: Entity, speed: int): (f: Entity)
    ensures f.rect == e.rect.(y := e.rect.y + speed)
    ensures f.active ==> e.active && f.rect.y <= ScreenHeight
    ensures e.active && f.rect.y <= ScreenHeight ==> f.active
  {
    var moved := e.rect.(y := e.rect.y + speed);
    Entity(moved, if moved.y > ScreenHeight then false else e.active)
  }

  /** The fall applied to every entry, active or not. Afterwards no active
      entry is below the screen, and no inactive one has become active. */
  function Advance(es: seq<Entity>, speed: int): (r: seq<Entity>)
    ensures |r| == |es|
    ensures forall i :: 0 <= i < |r| ==> r[i].rect.y == es[i].rect.y + speed
    ensures forall i :: 0 <= i < |r| && r[i].active ==> es[i].active && r[i].rect.y <= ScreenHeight
  {
    seq(|es|, i requires 0 <= i < |es| => Fall(es[i], speed))
  }

  /** Some entity (active or not) overlaps the player. */
  predicate AnyHit(player: Rect, es: seq<Entity>)
    ensures AnyHit(player, es) <==> exists e :: e in es && Intersects(player, e.rect)
  {
    exists i :: 0 <= i < |es| && Intersects(player, es[i].rect)
  }

  /** A star under the player is picked up: deactivated. */
  function Pick(player: Rect, s: Star): (p: Star)
    ensures p.rect == s.rect
    ensures p.active <==> s.active && !Intersects(player, s.rect)
  {
    if Intersects(player, s.rect) then s.(active := false) else s
  }

  /** The pickup applied to every star. Afterwards no active star overlaps
      the player, and no star has moved. */
  function Collect(player: Rect, ss: seq<Star>): (r: seq<Star>)
    ensures |r| == |ss|
    ensures forall i :: 0 <= i < |r| ==> r[i].rect == ss[i].rect && (r[i].active ==> ss[i].active)
    ensures forall e :: e in r && e.active ==> !Intersects(player, e.rect)
  {
    seq(|ss|, i requires 0 <= i < |ss| => Pick(player, ss[i]))
  }

  /** Number of stars overlapping the player. */
  function Pickups(player: Rect, ss: seq<Star>): (n: nat)
    ensures n <= |ss|
  {
    if ss == [] then 0
    else Pickups(player, ss[..|ss| - 1]) + (if Intersects(player, ss[|ss| - 1].rect) then 1 else 0)
  }

  lemma {:induction false} PickupsBound(player: Rect, ss: seq<Star>)
    ensures Pickups(player, ss) <= |ss|
    ensures Pickups(player, ss) == 0 <==> !AnyHit(player, ss)
  {
    if ss != [] {
      var init := ss[..|ss| - 1];
      PickupsBound(player, init);
      if AnyHit(player, init) {
        var i :| 0 <= i < |init| && Intersects(player, init[i].rect);
        assert Intersects(player, ss[i].rect);
      }
      if AnyHit(player, ss) && !Intersects(player, ss[|ss| - 1].rect) {
        var i :| 0 <= i < |ss| && Intersects(player, ss[i].rect);
        assert Intersects(player, init[i].rect);
      }
    }
  }

  /** The stable filter that keeps the active entries. */
  function Purge(es: seq<Entity>): (kept: seq<Entity>)
    ensures |kept| <= |es|
    ensures forall e :: e in kept ==> e.active
  {
    if es == [] then []
    else Purge(es[..|es| - 1]) + (if es[|es| - 1].active then [es[|es| - 1]] else [])
  }

  /** Purging distributes over concatenation. With the one-entry case,
      `Purge([e]) == if e.active then [e] else []`, this says the kept
      entries stay in their original relative order. */
  lemma {:induction false} PurgeAppend(a: seq<Entity>, b: seq<Entity>)
    ensures Purge(a + b) == Purge(a) + Purge(b)
  {
    if b == [] {
      assert a + b == a;
    } else {
      var init, last := b[..|b| - 1], b[|b| - 1];
      assert b == init + [last];
      assert a + b == (a + init) + [last];
      PurgeAppend(a, init);
      PurgeSnoc(a + init, last);
      PurgeSnoc(init, last);
    }
  }

  lemma PurgeSnoc(es: seq<Entity>, e: Entity)
    ensures Purge(es + [e]) == Purge(es) + if e.active then [e] else []
  {
    assert (es + [e])[..|es|] == es;
  }

  /** An entry survives the purge exactly when it was in the list and active. */
  lemma {:induction false} PurgeMembers(es: seq<Entity>)
    ensures forall e :: e in Purge(es) <==> e in es && e.active
  {
    if es != [] {
      var init := es[..|es| - 1];
      PurgeMembers(init);
      assert es == init + [es[|es| - 1]];
    }
  }

  /** A list with no inactive entry is left as it is. */
  lemma {:induction false} PurgeAllActive(es: seq<Entity>)
    requires forall i :: 0 <= i < |es| ==> es[i].active
    ensures Purge(es) == es
  {
    if es != [] {
      var init := es[..|es| - 1];
      PurgeAllActive(init);
      assert es == init + [es[|es| - 1]];
    }
  }

  // ---------------------------------------------------------------------
  // Shape of stored entities
  // ---------------------------------------------------------------------

  /** In a lane, of the right size, and not left active below the screen. */
  predicate Settled(e: Entity, offset: int, w: int, h: int) {
    Placed(e.rect, offset, w, h) && (e.active ==> e.rect.y <= ScreenHeight)
  }

  /** What every stored entity looks like between frames. */
  predicate Parked(e: Entity, offset: int, w: int, h: int) {
    e.active && Settled(e, offset, w, h)
  }

  lemma AdvanceSettles(es: seq<Entity>, speed: int, offset: int, w: int, h: int)
    requires forall e :: e in es ==> Placed(e.rect, offset, w, h)
    ensures forall e :: e in Advance(es, speed) ==> Settled(e, offset, w, h)
  {
    var r := Advance(es, speed);
    forall e | e in r ensures Settled(e, offset, w, h) {
      var i :| 0 <= i < |r| && r[i] == e;
      assert es[i] in es;
    }
  }

  lemma CollectKeepsSettled(player: Rect, ss: seq<Star>, offset: int, w: int, h: int)
    requires forall s :: s in ss ==> Settled(s, offset, w, h)
    ensures forall s :: s in Collect(player, ss) ==> Settled(s, offset, w, h)
  {
    var r := Collect(player, ss);
    forall s | s in r ensures Settled(s, offset, w, h) {
      var i :| 0 <= i < |r| && r[i] == s;
      assert ss[i] in ss;
    }
  }

  lemma PurgeParks(es: seq<Entity>, offset: int, w: int, h: int)
    requires forall e :: e in es ==> Settled(e, offset, w, h)
    ensures forall e :: e in Purge(es) ==> Parked(e, offset, w, h)
  {
    PurgeMembers(es);
  }

  // ---------------------------------------------------------------------
  // Lateral movement
  // ---------------------------------------------------------------------

  /** Left key: step left when the left edge is still right of 0. Only x
      changes, by one step or not at all. */
  function MoveLeft(p: Rect, held: bool): (q: Rect)
    ensures q == p.(x := q.x)
    ensures q.x == p.x || q.x == p.x - PlayerSpeed
    ensures q.x < p.x <==> held && p.x > 0
  {
    if held && p.x > 0 then p.(x := p.x - PlayerSpeed) else p
  }

  /** Right key: step right when the right edge is still left of the
      screen edge. Only x changes, by one step or not at all. */
  function MoveRight(p: Rect, held: bool): (q: Rect)
    ensures q == p.(x := q.x)
    ensures q.x == p.x || q.x == p.x + PlayerSpeed
    ensures q.x > p.x <==> held && p.x + p.w < ScreenWidth
  {
    if held && p.x + p.w < ScreenWidth then p.(x := p.x + PlayerSpeed) else p
  }

  /** The player's rectangle as it is between frames. */
  predicate PlayerOk(p: Rect) {
    p.y == PlayerY && p.w == PlayerW && p.h == PlayerH &&
    MinPlayerX <= p.x <= MaxPlayerX && p.x % PlayerSpeed == PlayerStartX % PlayerSpeed
  }

  /** Left then right keeps the player on the 10 px grid through 175 and
      within [-5, 355], and never changes anything but x. */
  lemma MovePreservesPlayerOk(p: Rect, left: bool, right: bool)
    requires PlayerOk(p)
    ensures PlayerOk(MoveRight(MoveLeft(p, left), right))
    ensures MoveRight(MoveLeft(p, left), right) == p.(x := MoveRight(MoveLeft(p, left), right).x)
  {
  }

  /** The bounds are reached: from x = 5 a left step ends at -5, from
      x = 345 a right step ends at 355, and both stop there. */
  lemma MoveOvershoot()
    ensures MoveLeft(Rect(5, PlayerY, PlayerW, PlayerH), true).x == MinPlayerX
    ensures MoveLeft(Rect(MinPlayerX, PlayerY, PlayerW, PlayerH), true).x == MinPlayerX
    ensures MoveRight(Rect(345, PlayerY, PlayerW, PlayerH), true).x == MaxPlayerX
    ensures MoveRight(Rect(MaxPlayerX, PlayerY, PlayerW, PlayerH), true).x == MaxPlayerX
    ensures PlayerOk(Rect(MinPlayerX, PlayerY, PlayerW, PlayerH))
    ensures PlayerOk(Rect(MaxPlayerX, PlayerY, PlayerW, PlayerH))
  {
  }
}
