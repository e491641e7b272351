/** The 2D fruit game: the game manager spawns fruits and bombs, moves them,
    lets the sword (placed from the tip and hilt the object detection finds)
    slice them for points, and drops those that left the window, with a
    penalty; the level manager keeps the score and the level and switches
    spawning off during the countdown to the next level. Sprites, labels,
    batches and the clock are left out; random draws, the clock's time and
    the sword's heading come in as parameters. */
module Game {
  import opened Seqs
  import opened Geometry
  import opened Vector2D
  import opened GameObjects
  import opened Levels

  /** Below this many objects the game spawns more. */
  const MinObjects := 10

  /** Share of the way the sword moves toward the tip each update. */
  const PositionLerp := 0.45

  /** Share of the angle difference the sword turns each update. */
  const RotationLerp := 0.18

  /** The game's configuration: the bomb chance is rewritten at every new
      level, the rest are constants. */
  class Settings {
    var bombChance: real
    const bombPoints: int
    const fruitPoints: int
    const objectInterval: real
    const gameOverThreshold: real
    const physics: Physics

    constructor(bombChance: real, bombPoints: int, fruitPoints: int, objectInterval: real,
                gameOverThreshold: real, physics: Physics)
      requires gameOverThreshold > 0.0
      ensures this.bombChance == bombChance && this.bombPoints == bombPoints
      ensures this.fruitPoints == fruitPoints && this.objectInterval == objectInterval
      ensures this.gameOverThreshold == gameOverThreshold && this.physics == physics
    {
      this.bombChance := bombChance;
      this.bombPoints := bombPoints;
      this.fruitPoints := fruitPoints;
      this.objectInterval := objectInterval;
      this.gameOverThreshold := gameOverThreshold;
      this.physics := physics;
    }
  }

  /** The score, the level, the countdown and the two bars. */
  class LevelManager {
    var level: int
    var points: int
    var required: int
    var countdownTime: int
    var countdownActive: bool
    var pointBarWidth: int
    var lossBarWidth: int
    var lossBarX: int
    const game: GameManager
    const settings: Settings

    function State(): Progress
      reads this
    {
      Progress(level, points, required, countdownTime, countdownActive)
    }

    /** The bars show the current points. */
    ghost predicate BarsShown()
      reads this
    {
      && required > 0 && settings.gameOverThreshold > 0.0
      && pointBarWidth == PointBarWidth(State())
      && lossBarWidth == LossBarWidth(points, settings.gameOverThreshold)
      && lossBarX == LossBarX(points, settings.gameOverThreshold)
    }

    ghost predicate Valid()
      reads this
    {
      WellFormed(State()) && BarsShown()
    }

    /** Level 1 with no points, no countdown, and bars drawn. */
    constructor(game: GameManager, settings: Settings)
      requires settings.gameOverThreshold > 0.0
      ensures Valid() && State() == Initial
      ensures this.game == game && this.settings == settings
    {
      level := 1;
      points := 0;
      required := RequiredPoints(1);
      countdownTime := 0;
      countdownActive := false;
      this.game := game;
      this.settings := settings;
      new;
      UpdateBar();
    }

    /** Redraws both bars from the current points. */
    method UpdateBar()
      requires required > 0 && settings.gameOverThreshold > 0.0
      modifies this`pointBarWidth, this`lossBarWidth, this`lossBarX
      ensures BarsShown()
    {
      var ratio := points as real / required as real;
      pointBarWidth := Trunc((WindowWidth as real) * (if ratio < 1.0 then ratio else 1.0));
      var negative := if -points > 0 then -points else 0;
      var lossRatio := negative as real / settings.gameOverThreshold;
      var width := Trunc((WindowWidth as real) * (if lossRatio < 1.0 then lossRatio else 1.0));
      lossBarWidth := width;
      lossBarX := WindowWidth - width;
    }

    /** Adds points and moves to the next level once the target is reached;
        only then are spawning, the fruit minimum and the bomb chance
        touched. */
    method IncrementPoints(amount: int)
      requires Valid()
      modifies this, game`spawningEnabled, game`minFruits, settings`bombChance
      ensures Valid()
      ensures State() == Gain(old(State()), amount)
      ensures LevelsUp(old(State()), amount) ==>
        && !game.spawningEnabled
        && game.minFruits == Some(MinFruits(level))
        && settings.bombChance == BombChance(level)
      ensures !LevelsUp(old(State()), amount) ==>
        && game.spawningEnabled == old(game.spawningEnabled)
        && game.minFruits == old(game.minFruits)
        && settings.bombChance == old(settings.bombChance)
    {
      GainSpec(State(), amount);
      points := points + amount;
      if points >= required {
        NextLevel();
      }
      UpdateBar();
    }

    /** Subtracts points; the level is never checked, so a negative amount
        can leave the points at or above the target. */
    method DecrementPoints(amount: int)
      requires Valid()
      modifies this`points, this`pointBarWidth, this`lossBarWidth, this`lossBarX
      ensures State() == Drop(old(State()), amount) && BarsShown()
      ensures amount >= 0 ==> Valid()
    {
      points := points - amount;
      UpdateBar();
    }

    /** One level up, with the harder settings of the new level, spawning
        switched off and the countdown started. */
    method NextLevel()
      requires level >= 1 && settings.gameOverThreshold > 0.0
      modifies this, game`spawningEnabled, game`minFruits, settings`bombChance
      ensures State() == Levels.NextLevel(old(State())) && BarsShown()
      ensures !game.spawningEnabled
      ensures game.minFruits == Some(MinFruits(level))
      ensures settings.bombChance == BombChance(level)
    {
      level := level + 1;
      points := 0;
      required := RequiredPoints(level);
      game.minFruits := Some(MinFruits(level));
      settings.bombChance := BombChance(level);
      game.SetSpawningEnabled(false);
      StartCountdown(CountdownSeconds);
      UpdateBar();
    }

    method StartCountdown(seconds: int)
      modifies this`countdownTime, this`countdownActive
      ensures countdownTime == seconds && countdownActive
    {
      countdownTime := seconds;
      countdownActive := true;
    }

    /** The once-a-second countdown tick; the tick that ends the countdown
        switches spawning back on. */
    method CountdownTick()
      requires Valid()
      modifies this`countdownTime, this`countdownActive, game`spawningEnabled
      ensures Valid()
      ensures State() == Tick(old(State()))
      ensures game.spawningEnabled == (TickEnds(old(State())) || old(game.spawningEnabled))
    {
      TickSpec(State());
      if !countdownActive {
        return;
      }
      countdownTime := countdownTime - 1;
      if countdownTime <= 0 {
        countdownActive := false;
        game.SetSpawningEnabled(true);
      }
    }
  }

  /** The random draws of one spawn: the number compared with the bomb
      chance, the sprite (already scaled), the side, the height, and the
      velocities, whose trigonometry is done by the caller. */
  datatype SpawnRoll = SpawnRoll(chance: real, sprite: Sprite, fromLeft: bool, y: real, velocity: Vec, angularVelocity: real)

  /** The sword's pose. */
  datatype Pose = Pose(x: real, y: real, rotation: real, visible: bool)

  /** A new object starts just outside the window, its far edge on the left
      or right border. */
  function SpawnX(fromLeft: bool, width: real): real
  {
    if fromLeft then -width else WindowWidth as real + width
  }

  /** A new object as the draw makes it: a bomb below the bomb chance and a
      fruit otherwise, the drawn sprite's size, shown, at rest at the drawn
      height just outside the drawn side, with the drawn motion. */
  ghost predicate Spawned(o: GameObject, roll: SpawnRoll, settings: Settings)
    reads o, settings
  {
    && o.points == (if roll.chance < settings.bombChance then settings.bombPoints else settings.fruitPoints)
    && o.width == roll.sprite.width && o.height == roll.sprite.height && o.visible
    && o.State() == SpawnBody(roll)
  }

  /** The body of a new object: just outside the drawn side, at the drawn
      height, with the drawn motion and the sprite's rotation. */
  function SpawnBody(roll: SpawnRoll): Body
  {
    Body(SpawnX(roll.fromLeft, roll.sprite.width), roll.y, roll.velocity, roll.angularVelocity, roll.sprite.rotation, false)
  }

  /** Spawning is due: it is on, there are too few objects and strictly more
      than the cooldown has passed since the last spawn. */
  predicate SpawnDue(enabled: bool, count: int, now: real, last: real, cooldown: real)
  {
    enabled && count < MinObjects && now - last > cooldown
  }

  /** The remainder of d modulo 360 in [0, 360), then moved into
      (-180, 180]. */
  function Wrap(d: real): real
  {
    var m := d - 360.0 * ((d / 360.0).Floor as real);
    if m > 180.0 then m - 360.0 else m
  }

  /** k whole turns, in degrees. */
  function Turns(k: int): real
  {
    360.0 * (k as real)
  }

  /** The angle the sword image should have for the tip above the hilt:
      straight up for a vertical blade, turned round when the tip is below;
      otherwise 90 degrees minus the heading from hilt to tip. */
  function SwordAngle(high: Point, low: Point, heading: real): real
  {
    var dx := high.x - low.x;
    var dy := high.y - low.y;
    if dx == 0.0 then (if dy < 0.0 then 270.0 else 90.0) else 90.0 - heading
  }

  /** The sword after an update: shown and eased toward the tip and its angle
      when both the tip and the hilt were found, hidden where it is
      otherwise. */
  function SwordAfter(p: Pose, high: Option<Point>, low: Option<Point>, heading: real): Pose
  {
    if high.Some? && low.Some? then
      var angle := SwordAngle(high.value, low.value, heading);
      Pose(p.x + (high.value.x - p.x) * PositionLerp,
           p.y + (high.value.y - p.y) * PositionLerp,
           p.rotation + Wrap(angle - p.rotation) * RotationLerp,
           true)
    else
      p.(visible := false)
  }

  /** Half a width, rounded down. */
  function Half(w: real): real
  {
    (w / 2.0).Floor as real
  }

  /** Two boxes centred at their positions overlap: both distances are
      strictly below the sums of the rounded-down half sizes. */
  predicate Colliding(sx: real, sy: real, sw: real, sh: real, ox: real, oy: real, ow: real, oh: real)
  {
    Abs(sx - ox) < Half(sw) + Half(ow) && Abs(sy - oy) < Half(sh) + Half(oh)
  }

  /** The sword slices the object: it is on screen, the sword is shown and
      the two overlap. */
  predicate Hit(sword: GameObject, o: GameObject)
    reads sword, o
  {
    && !o.offScreen
    && sword.visible
    && Colliding(sword.x, sword.y, sword.width, sword.height, o.x, o.y, o.width, o.height)
  }

  /** The objects of the list the sword hits. */
  ghost function Hits(objs: seq<GameObject>, sword: GameObject): set<GameObject>
    reads sword, set o | o in objs
  {
    set o | o in objs && Hit(sword, o)
  }

  /** The objects of the list that left the window. */
  ghost function Lost(objs: seq<GameObject>): set<GameObject>
    reads set o | o in objs
  {
    set o | o in objs && o.offScreen
  }

  /** The collision pass as the game runs it, from position i of the list as
      it stands, where hits are the objects the sword hits: a sliced object
      is taken out of the list and the pass goes on at the next position,
      which skips the object that moved into the removed one's place. The
      result is the list left and the objects sliced, in order. */
  function Sweep<T(==)>(objs: seq<T>, i: nat, hits: set<T>): (seq<T>, seq<T>)
    decreases |objs| - i
  {
    if i >= |objs| then (objs, [])
    else if objs[i] in hits then
      var r := Sweep(RemoveAt(objs, i), i + 1, hits);
      (r.0, [objs[i]] + r.1)
    else
      Sweep(objs, i + 1, hits)
  }

  /** The points of the objects, in order. */
  function PointsOf(objs: seq<GameObject>): seq<int>
  {
    if objs == [] then [] else PointsOf(objs[..|objs| - 1]) + [objs[|objs| - 1].points]
  }

  /** The objects not lost, in order. */
  function Kept<T(==)>(objs: seq<T>, lost: set<T>): seq<T>
  {
    if objs == [] then []
    else Kept(objs[..|objs| - 1], lost) + (if objs[|objs| - 1] in lost then [] else [objs[|objs| - 1]])
  }

  /** The objects lost, in order. */
  function Dropped<T(==)>(objs: seq<T>, lost: set<T>): seq<T>
  {
    if objs == [] then []
    else Dropped(objs[..|objs| - 1], lost) + (if objs[|objs| - 1] in lost then [objs[|objs| - 1]] else [])
  }

  /** The penalties for lost objects: half the points, rounded down, of each
      one worth more than nothing. */
  function Penalties(objs: seq<GameObject>): seq<int>
  {
    if objs == [] then []
    else
      var o := objs[|objs| - 1];
      Penalties(objs[..|objs| - 1]) + (if o.points > 0 then [-(o.points / 2)] else [])
  }

  /** Splits the objects into those still on screen and those that left
      the window, each in list order. */
  method SplitOffScreen(objs: seq<GameObject>) returns (on: seq<GameObject>, off: seq<GameObject>)
    ensures on == Kept(objs, Lost(objs)) && off == Dropped(objs, Lost(objs))
    ensures forall j :: 0 <= j < |on| ==> !on[j].offScreen
    ensures forall j :: 0 <= j < |off| ==> off[j].offScreen
  {
    ghost var lost := Lost(objs);
    on, off := [], [];
    for i := 0 to |objs|
      invariant on == Kept(objs[..i], lost) && off == Dropped(objs[..i], lost)
      invariant forall j :: 0 <= j < |on| ==> !on[j].offScreen
      invariant forall j :: 0 <= j < |off| ==> off[j].offScreen
    {
      assert objs[..i + 1][..i] == objs[..i];
      if objs[i].offScreen {
        off := off + [objs[i]];
      } else {
        on := on + [objs[i]];
      }
    }
    assert objs[..|objs|] == objs;
  }

  /** The game: the live objects, the sword, spawning and its timing, and the
      level manager, which points back to it. */
  class GameManager {
    var gameobjects: seq<GameObject>
    const sword: GameObject
    var spawningEnabled: bool
    var spawnCooldown: real
    var lastSpawnTime: real
    var minFruits: Option<int>
    var levelManager: LevelManager?
    const settings: Settings

    ghost predicate Valid()
      reads this, levelManager
    {
      && levelManager != null
      && levelManager.game == this
      && levelManager.settings == settings
      && levelManager.Valid()
      && sword !in gameobjects
      && Distinct(gameobjects)
    }

    function SwordPose(): Pose
      reads sword
    {
      Pose(sword.x, sword.y, sword.rotation, sword.visible)
    }

    /** What a run of gains leaves of the settings the next frame reads:
        the level never drops; without a level-up, spawning, the fruit
        minimum and the bomb chance stay as they were; after one, spawning
        is off and the fruit minimum and the bomb chance are those of the
        level reached. */
    twostate predicate SettingsFollowLevel()
      reads this, levelManager, settings
    {
      && levelManager != null && old(levelManager) == levelManager
      && var same := levelManager.level == old(levelManager.level);
         && old(levelManager.level) <= levelManager.level
         && spawningEnabled == (old(spawningEnabled) && same)
         && minFruits == (if same then old(minFruits) else Some(MinFruits(levelManager.level)))
         && settings.bombChance == (if same then old(settings.bombChance) else BombChance(levelManager.level))
    }

    /** A new game: no objects, spawning off, a hidden sword, and a level
        manager at level 1. */
    constructor(swordSprite: Sprite, settings: Settings)
      requires settings.gameOverThreshold > 0.0
      ensures Valid() && gameobjects == [] && !spawningEnabled
      ensures lastSpawnTime == 0.0 && spawnCooldown == settings.objectInterval
      ensures !sword.visible && levelManager.State() == Initial
      ensures this.settings == settings
    {
      gameobjects := [];
      var s := new GameObject(swordSprite, 0.0, 0.0, 0);
      s.visible := false;
      sword := s;
      spawningEnabled := false;
      spawnCooldown := settings.objectInterval;
      lastSpawnTime := 0.0;
      minFruits := None;
      this.settings := settings;
      new;
      levelManager := new LevelManager(this, settings);
    }

    method SetSpawningEnabled(enabled: bool)
      modifies this`spawningEnabled
      ensures spawningEnabled == enabled
    {
      spawningEnabled := enabled;
    }

    /** Adds a new object at the left or right edge of the window: a bomb
        when the draw is below the bomb chance, a fruit otherwise. */
    method Spawn(roll: SpawnRoll) returns (o: GameObject)
      requires Valid()
      modifies this`gameobjects
      ensures Valid() && fresh(o)
      ensures gameobjects == old(gameobjects) + [o]
      ensures o.points == if roll.chance < settings.bombChance then settings.bombPoints else settings.fruitPoints
      ensures o.width == roll.sprite.width && o.height == roll.sprite.height && o.visible
      ensures o.State() == Body(SpawnX(roll.fromLeft, roll.sprite.width), roll.y, roll.velocity, roll.angularVelocity, roll.sprite.rotation, false)
    {
      var pts := if roll.chance < settings.bombChance then settings.bombPoints else settings.fruitPoints;
      o := new GameObject(roll.sprite, 0.0, roll.y, pts);
      o.x := SpawnX(roll.fromLeft, o.width);
      o.velocity := roll.velocity;
      o.angularVelocity := roll.angularVelocity;
      gameobjects := gameobjects + [o];
    }

    /** Places the sword from the tip and the hilt. */
    method UpdateSword(high: Option<Point>, low: Option<Point>, heading: real)
      modifies sword
      ensures SwordPose() == SwordAfter(old(SwordPose()), high, low, heading)
    {
      if high.Some? && low.Some? {
        sword.visible := true;
        var angle := SwordAngle(high.value, low.value, heading);
        sword.x := sword.x + (high.value.x - sword.x) * PositionLerp;
        sword.y := sword.y + (high.value.y - sword.y) * PositionLerp;
        var diff := angle - sword.rotation;
        var wrapped := diff - 360.0 * ((diff / 360.0).Floor as real);
        if wrapped > 180.0 {
          wrapped := wrapped - 360.0;
        }
        sword.rotation := sword.rotation + wrapped * RotationLerp;
      } else {
        sword.visible := false;
      }
    }

    /** One physics step for every object. */
    method PhysicsAll(dt: real)
      requires Valid()
      modifies set o | o in gameobjects
      ensures forall j :: 0 <= j < |gameobjects| ==>
        gameobjects[j].State() == Step(old(gameobjects[j].State()), gameobjects[j].width, gameobjects[j].height, dt, settings.physics)
    {
      for i := 0 to |gameobjects|
        invariant forall j :: 0 <= j < i ==>
          gameobjects[j].State() == Step(old(gameobjects[j].State()), gameobjects[j].width, gameobjects[j].height, dt, settings.physics)
        invariant forall j :: i <= j < |gameobjects| ==> gameobjects[j].State() == old(gameobjects[j].State())
      {
        gameobjects[i].PhysicsUpdate(dt, settings.physics);
      }
    }

    /** Slices the object at position i: its points go to the score and it
        leaves the list, which holds it only there. */
    method SliceAt(i: nat)
      requires Valid() && i < |gameobjects|
      modifies this`gameobjects, levelManager, this`spawningEnabled, this`minFruits, settings`bombChance
      ensures Valid()
      ensures gameobjects == RemoveAt(old(gameobjects), i)
      ensures levelManager.State() == Gain(old(levelManager.State()), old(gameobjects[i]).points)
      ensures SettingsFollowLevel()
    {
      var o := gameobjects[i];
      GainSpec(levelManager.State(), o.points);
      levelManager.IncrementPoints(o.points);
      RemoveAtSpec(gameobjects, i);
      gameobjects := RemoveAt(gameobjects, i);
    }

    /** The collision pass: each sliced object adds its points to the score
        and leaves the list. */
    method CheckCollisions()
      requires Valid()
      modifies this`gameobjects, levelManager, this`spawningEnabled, this`minFruits, settings`bombChance
      ensures Valid()
      ensures var r := Sweep(old(gameobjects), 0, old(Hits(gameobjects, sword)));
        && gameobjects == r.0
        && levelManager.State() == GainAll(old(levelManager.State()), PointsOf(r.1))
      ensures SettingsFollowLevel()
    {
      ghost var hits := Hits(gameobjects, sword);
      ghost var whole := Sweep(gameobjects, 0, hits);
      ghost var start := levelManager.State();
      ghost var sliced: seq<GameObject> := [];
      var i := 0;
      while i < |gameobjects|
        invariant Valid()
        invariant forall o :: o in gameobjects ==> o in old(gameobjects)
        invariant Sweep(gameobjects, i, hits).0 == whole.0
        invariant sliced + Sweep(gameobjects, i, hits).1 == whole.1
        invariant levelManager.State() == GainAll(start, PointsOf(sliced))
        invariant SettingsFollowLevel()
        decreases |gameobjects| - i
      {
        assert gameobjects[i] in old(gameobjects);
        assert Hit(sword, gameobjects[i]) <==> gameobjects[i] in hits;
        SweepAdvance(gameobjects, i, hits, sliced, whole);
        if Hit(sword, gameobjects[i]) {
          ghost var o := gameobjects[i];
          SliceAt(i);
          SliceStep(start, sliced, o);
          sliced := sliced + [o];
        }
        i := i + 1;
      }
      assert Sweep(gameobjects, i, hits) == (gameobjects, []);
      assert sliced + [] == sliced;
    }

    /** The penalty for one lost object: half its points, rounded down, when
        it is worth more than nothing. */
    method ChargePenalty(o: GameObject)
      requires Valid()
      modifies levelManager, this`spawningEnabled, this`minFruits, settings`bombChance
      ensures Valid()
      ensures levelManager.State() == GainAll(old(levelManager.State()), Penalties([o]))
      ensures levelManager.level == old(levelManager.level)
      ensures spawningEnabled == old(spawningEnabled) && minFruits == old(minFruits)
      ensures settings.bombChance == old(settings.bombChance)
    {
      assert [o][..0] == [];
      if o.points > 0 {
        var penalty := o.points / 2;
        GainSpec(levelManager.State(), -penalty);
        levelManager.IncrementPoints(-penalty);
      }
    }

    /** Drops the objects that left the window, charging a penalty for each
        one worth points; with spawning off, drops every object. */
    method Cleanup()
      requires Valid()
      modifies this`gameobjects, levelManager, this`spawningEnabled, this`minFruits, settings`bombChance
      ensures Valid()
      ensures !old(spawningEnabled) ==> gameobjects == [] && levelManager.State() == old(levelManager.State())
      ensures old(spawningEnabled) ==>
        && gameobjects == old(Kept(gameobjects, Lost(gameobjects)))
        && levelManager.State() == GainAll(old(levelManager.State()), Penalties(old(Dropped(gameobjects, Lost(gameobjects)))))
      ensures forall j :: 0 <= j < |gameobjects| ==> !gameobjects[j].offScreen
      ensures spawningEnabled == old(spawningEnabled) && minFruits == old(minFruits)
      ensures settings.bombChance == old(settings.bombChance)
      ensures levelManager.level == old(levelManager.level)
    {
      if !spawningEnabled {
        gameobjects := [];
        return;
      }
      ghost var lost := Lost(gameobjects);
      var on, off := SplitOffScreen(gameobjects);
      assert on == old(Kept(gameobjects, Lost(gameobjects)));
      assert off == old(Dropped(gameobjects, Lost(gameobjects)));
      KeptSides(gameobjects, lost);
      KeptDistinct(gameobjects, lost);
      gameobjects := on;
      ChargePenalties(off);
    }

    /** The penalties for the lost objects, one after the other. */
    method ChargePenalties(off: seq<GameObject>)
      requires Valid()
      modifies levelManager, this`spawningEnabled, this`minFruits, settings`bombChance
      ensures Valid()
      ensures levelManager.State() == GainAll(old(levelManager.State()), Penalties(off))
      ensures levelManager.level == old(levelManager.level)
      ensures spawningEnabled == old(spawningEnabled) && minFruits == old(minFruits)
      ensures settings.bombChance == old(settings.bombChance)
    {
      ghost var start := levelManager.State();
      for j := 0 to |off|
        invariant Valid()
        invariant spawningEnabled == old(spawningEnabled) && minFruits == old(minFruits)
        invariant settings.bombChance == old(settings.bombChance)
        invariant levelManager.State() == GainAll(start, Penalties(off[..j]))
        invariant levelManager.level == start.level
      {
        assert off[..j + 1] == off[..j] + [off[j]];
        PenaltyStep(start, off[..j], off[j]);
        ChargePenalty(off[j]);
      }
      assert off[..|off|] == off;
    }

    /** Spawns one object when spawning is due, and then records the time
        and the next cooldown. */
    method SpawnIfDue(now: real, roll: SpawnRoll, nextCooldown: real)
      requires Valid()
      modifies this`gameobjects, this`lastSpawnTime, this`spawnCooldown
      ensures Valid()
      ensures var due := SpawnDue(spawningEnabled, old(|gameobjects|), now, old(lastSpawnTime), old(spawnCooldown));
        && lastSpawnTime == (if due then now else old(lastSpawnTime))
        && spawnCooldown == (if due then nextCooldown else old(spawnCooldown))
        && |gameobjects| == old(|gameobjects|) + (if due then 1 else 0)
        && gameobjects[..old(|gameobjects|)] == old(gameobjects)
      ensures forall j :: old(|gameobjects|) <= j < |gameobjects| ==> fresh(gameobjects[j]) && Spawned(gameobjects[j], roll, settings)
    {
      if spawningEnabled && |gameobjects| < MinObjects && now - lastSpawnTime > spawnCooldown {
        var o := Spawn(roll);
        lastSpawnTime := now;
        spawnCooldown := nextCooldown;
      }
    }

    /** One frame of the game: maybe a spawn, the sword, physics for every
        object, the collision pass and the clean-up. The list the frame
        works on is the old one with the spawned object, if any, at its end;
        the pass slices among them the objects the sword hits at their new
        positions, and the clean-up then keeps the ones still on screen, or
        none once spawning is off, charging a penalty for each one lost. */
    method Update(dt: real, now: real, high: Option<Point>, low: Option<Point>, heading: real,
                  roll: SpawnRoll, nextCooldown: real)
      returns (ghost frame: seq<GameObject>)
      requires Valid()
      modifies this, levelManager, settings`bombChance, sword, set o | o in gameobjects
      ensures Valid()
      ensures var due := SpawnDue(old(spawningEnabled), old(|gameobjects|), now, old(lastSpawnTime), old(spawnCooldown));
        && lastSpawnTime == (if due then now else old(lastSpawnTime))
        && spawnCooldown == (if due then nextCooldown else old(spawnCooldown))
        && |frame| == old(|gameobjects|) + (if due then 1 else 0)
      ensures frame[..old(|gameobjects|)] == old(gameobjects)
      ensures forall j :: old(|gameobjects|) <= j < |frame| ==>
        && fresh(frame[j]) && frame[j].points == (if roll.chance < old(settings.bombChance) then settings.bombPoints else settings.fruitPoints)
        && frame[j].width == roll.sprite.width && frame[j].height == roll.sprite.height
        && frame[j].State() == Step(SpawnBody(roll), frame[j].width, frame[j].height, dt, settings.physics)
      ensures forall j :: 0 <= j < old(|gameobjects|) ==>
        frame[j].State() == Step(old(frame[j].State()), frame[j].width, frame[j].height, dt, settings.physics)
      ensures SwordPose() == SwordAfter(old(SwordPose()), high, low, heading)
      ensures var r := Sweep(frame, 0, Hits(frame, sword));
        && gameobjects == (if spawningEnabled then Kept(r.0, Lost(r.0)) else [])
        && levelManager.State()
           == GainAll(GainAll(old(levelManager.State()), PointsOf(r.1)),
                      if spawningEnabled then Penalties(Dropped(r.0, Lost(r.0))) else [])
      ensures forall j :: 0 <= j < |gameobjects| ==> !gameobjects[j].offScreen
      ensures SettingsFollowLevel()
    {
      frame := MoveAll(dt, now, high, low, heading, roll, nextCooldown);
      Resolve();
    }

    /** The first part of a frame: maybe a spawn, then the sword, then one
        physics step for every object, the new one included. */
    method MoveAll(dt: real, now: real, high: Option<Point>, low: Option<Point>, heading: real,
                   roll: SpawnRoll, nextCooldown: real)
      returns (ghost frame: seq<GameObject>)
      requires Valid()
      modifies this`gameobjects, this`lastSpawnTime, this`spawnCooldown, sword, set o | o in gameobjects
      ensures Valid() && gameobjects == frame
      ensures var due := SpawnDue(spawningEnabled, old(|gameobjects|), now, old(lastSpawnTime), old(spawnCooldown));
        && lastSpawnTime == (if due then now else old(lastSpawnTime))
        && spawnCooldown == (if due then nextCooldown else old(spawnCooldown))
        && |frame| == old(|gameobjects|) + (if due then 1 else 0)
      ensures frame[..old(|gameobjects|)] == old(gameobjects)
      ensures forall j :: old(|gameobjects|) <= j < |frame| ==>
        && fresh(frame[j]) && frame[j].points == (if roll.chance < settings.bombChance then settings.bombPoints else settings.fruitPoints)
        && frame[j].width == roll.sprite.width && frame[j].height == roll.sprite.height
        && frame[j].State() == Step(SpawnBody(roll), frame[j].width, frame[j].height, dt, settings.physics)
      ensures forall j :: 0 <= j < old(|gameobjects|) ==>
        frame[j].State() == Step(old(frame[j].State()), frame[j].width, frame[j].height, dt, settings.physics)
      ensures SwordPose() == SwordAfter(old(SwordPose()), high, low, heading)
    {
      SpawnIfDue(now, roll, nextCooldown);
      frame := gameobjects;
      UpdateSword(high, low, heading);
      PhysicsAll(dt);
    }

    /** The second part of a frame: the collision pass over the objects as
        they stand, then the clean-up of the list it leaves. */
    method Resolve()
      requires Valid()
      modifies this`gameobjects, levelManager, this`spawningEnabled, this`minFruits, settings`bombChance
      ensures Valid()
      ensures var r := Sweep(old(gameobjects), 0, old(Hits(gameobjects, sword)));
        && gameobjects == (if spawningEnabled then Kept(r.0, Lost(r.0)) else [])
        && levelManager.State()
           == GainAll(GainAll(old(levelManager.State()), PointsOf(r.1)),
                      if spawningEnabled then Penalties(Dropped(r.0, Lost(r.0))) else [])
      ensures forall j :: 0 <= j < |gameobjects| ==> !gameobjects[j].offScreen
      ensures SettingsFollowLevel()
    {
      CheckCollisions();
      Cleanup();
    }
  }

  /** One position further in the pass: a slice moves the object into the
      sliced ones and leaves the rest of the pass to the shortened list; a
      miss leaves the list as it is. */
  lemma SweepAdvance<T>(objs: seq<T>, i: nat, hits: set<T>, sliced: seq<T>, whole: (seq<T>, seq<T>))
    requires i < |objs|
    requires Sweep(objs, i, hits).0 == whole.0 && sliced + Sweep(objs, i, hits).1 == whole.1
    ensures objs[i] in hits ==>
      var rest := RemoveAt(objs, i);
      && Sweep(rest, i + 1, hits).0 == whole.0
      && (sliced + [objs[i]]) + Sweep(rest, i + 1, hits).1 == whole.1
      && forall o :: o in rest ==> o in objs
    ensures objs[i] !in hits ==>
      Sweep(objs, i + 1, hits).0 == whole.0 && sliced + Sweep(objs, i + 1, hits).1 == whole.1
  {
    if objs[i] in hits {
      var rest := RemoveAt(objs, i);
      var r := Sweep(rest, i + 1, hits);
      assert (sliced + [objs[i]]) + r.1 == sliced + ([objs[i]] + r.1);
      RemoveAtIndex(objs, i);
      forall o | o in rest ensures o in objs {
        var k :| 0 <= k < |rest| && rest[k] == o;
        if k < i { assert objs[k] == o; } else { assert objs[k + 1] == o; }
      }
    }
  }

  /** The objects left and the objects sliced together are the objects the
      pass started with, and every sliced object was hit. */
  lemma {:induction false} SweepPartition<T>(objs: seq<T>, i: nat, hits: set<T>)
    ensures var r := Sweep(objs, i, hits);
      && multiset(r.0) + multiset(r.1) == multiset(objs)
      && (forall k :: 0 <= k < |r.1| ==> r.1[k] in hits)
    decreases |objs| - i
  {
    if i < |objs| {
      if objs[i] in hits {
        var rest := RemoveAt(objs, i);
        RemoveAtCount(objs, i);
        SweepPartition(rest, i + 1, hits);
        var r, r' := Sweep(objs, i, hits), Sweep(rest, i + 1, hits);
        assert r == (r'.0, [objs[i]] + r'.1);
        assert multiset(r.1) == multiset{objs[i]} + multiset(r'.1);
      } else {
        SweepPartition(objs, i + 1, hits);
      }
    }
  }

  /** The objects before the starting position stay where they are, and at
      most every other object from there on is sliced. */
  lemma {:induction false} SweepPrefix<T>(objs: seq<T>, i: nat, hits: set<T>)
    requires i <= |objs|
    ensures var r := Sweep(objs, i, hits);
      && i <= |r.0| && r.0[..i] == objs[..i]
      && |r.1| <= (|objs| - i + 1) / 2
    decreases |objs| - i
  {
    if i < |objs| {
      if objs[i] in hits {
        var rest := RemoveAt(objs, i);
        if i + 1 <= |rest| {
          SweepPrefix(rest, i + 1, hits);
          var r := Sweep(rest, i + 1, hits);
          assert r.0[..i] == r.0[..i + 1][..i];
          assert rest[..i + 1][..i] == objs[..i];
        } else {
          assert rest == objs[..i];
        }
      } else {
        SweepPrefix(objs, i + 1, hits);
        var r := Sweep(objs, i + 1, hits);
        assert r.0[..i] == r.0[..i + 1][..i];
        assert objs[..i + 1][..i] == objs[..i];
      }
    }
  }

  /** An object the sword does not hit is still in the list after the
      pass. */
  lemma MissedObjectsStay<T>(objs: seq<T>, hits: set<T>, o: T)
    requires o in objs && o !in hits
    ensures o in Sweep(objs, 0, hits).0
  {
    SweepPartition(objs, 0, hits);
    var r := Sweep(objs, 0, hits);
    assert o !in r.1;
    assert o in multiset(r.0) + multiset(r.1);
  }

  /** The object after a sliced one moves into its place and the pass goes
      on past it, so it stays in the list even when the sword hits it too. */
  lemma SliceSkipsNext<T>(objs: seq<T>, i: nat, hits: set<T>)
    requires i + 1 < |objs| && objs[i] in hits
    ensures var r := Sweep(objs, i, hits);
      i < |r.0| && r.0[i] == objs[i + 1]
  {
    var rest := RemoveAt(objs, i);
    SweepPrefix(rest, i + 1, hits);
    assert rest[i] == objs[i + 1];
    assert Sweep(rest, i + 1, hits).0[..i + 1][i] == rest[i];
  }

  /** Two overlapping objects one after the other: the sword slices only
      the first in this pass. */
  lemma SliceSkipsExample<T>(a: T, b: T, hits: set<T>)
    requires a in hits && b in hits
    ensures Sweep([a, b], 0, hits) == ([b], [a])
  {
    assert [a, b][0] == a;
    assert RemoveAt([a, b], 0) == [b];
    var r := Sweep([b], 1, hits);
    assert r == ([b], []);
    assert Sweep([a, b], 0, hits) == (r.0, [a] + r.1);
    assert [a] + r.1 == [a];
  }

  /** A hidden sword hits nothing, and with nothing hit the pass slices
      nothing. */
  lemma {:induction false} HiddenSwordSlicesNothing(objs: seq<GameObject>, i: nat, sword: GameObject)
    requires !sword.visible
    ensures Hits(objs, sword) == {}
    ensures Sweep(objs, i, Hits(objs, sword)) == (objs, [])
    decreases |objs| - i
  {
    if i < |objs| {
      HiddenSwordSlicesNothing(objs, i + 1, sword);
    }
  }

  /** The clean-up split: the kept objects and the lost ones together are
      the objects; an object is kept exactly when it is not lost and dropped
      exactly when it is; and a list without repeats stays without repeats. */
  lemma {:induction false} KeptPartition<T>(objs: seq<T>, lost: set<T>)
    ensures multiset(Kept(objs, lost)) + multiset(Dropped(objs, lost)) == multiset(objs)
  {
    if objs != [] {
      var init, last := objs[..|objs| - 1], objs[|objs| - 1];
      KeptPartition(init, lost);
      assert objs == init + [last];
      assert multiset(objs) == multiset(init) + multiset{last};
      var k, d := Kept(init, lost), Dropped(init, lost);
      if last in lost {
        assert Kept(objs, lost) == k && Dropped(objs, lost) == d + [last];
        assert multiset(d + [last]) == multiset(d) + multiset{last};
      } else {
        assert Kept(objs, lost) == k + [last] && Dropped(objs, lost) == d;
        assert multiset(k + [last]) == multiset(k) + multiset{last};
      }
    }
  }

  lemma {:induction false} KeptSides<T>(objs: seq<T>, lost: set<T>)
    ensures forall o :: o in Kept(objs, lost) <==> o in objs && o !in lost
    ensures forall o :: o in Dropped(objs, lost) <==> o in objs && o in lost
  {
    if objs != [] {
      var init, last := objs[..|objs| - 1], objs[|objs| - 1];
      KeptSides(init, lost);
      assert objs == init + [last];
      assert forall o :: o in objs <==> o in init || o == last;
    }
  }

  lemma {:induction false} KeptDistinct<T>(objs: seq<T>, lost: set<T>)
    requires Distinct(objs)
    ensures Distinct(Kept(objs, lost))
  {
    if objs != [] {
      var init, last := objs[..|objs| - 1], objs[|objs| - 1];
      assert Distinct(init);
      KeptDistinct(init, lost);
      KeptSides(init, lost);
      assert last !in init by {
        assert objs == init + [last];
      }
    }
  }

  /** The score after the penalty of one more lost object. */
  lemma PenaltyStep(start: Progress, lost: seq<GameObject>, o: GameObject)
    ensures Penalties(lost + [o]) == Penalties(lost) + Penalties([o])
    ensures GainAll(start, Penalties(lost + [o])) == GainAll(GainAll(start, Penalties(lost)), Penalties([o]))
  {
    assert (lost + [o])[..|lost|] == lost;
    assert [o][..0] == [];
    GainAllAppend(start, Penalties(lost), Penalties([o]));
  }

  /** Penalties only take points away. */
  lemma {:induction false} PenaltiesNonPositive(objs: seq<GameObject>)
    ensures |Penalties(objs)| <= |objs|
    ensures forall k :: 0 <= k < |Penalties(objs)| ==> Penalties(objs)[k] <= 0
  {
    if objs != [] {
      PenaltiesNonPositive(objs[..|objs| - 1]);
    }
  }

  /** Losing objects never moves the game to another level. */
  lemma CleanupKeepsLevel(p: Progress, objs: seq<GameObject>)
    requires WellFormed(p)
    ensures GainAll(p, Penalties(objs)).level == p.level
    ensures WellFormed(GainAll(p, Penalties(objs)))
  {
    PenaltiesNonPositive(objs);
    LossesKeepLevel(p, Penalties(objs));
  }

  /** A new object is not yet counted as off screen. */
  lemma SpawnedOnScreen(fromLeft: bool, width: real, height: real, y: real)
    requires width >= 0.0 && height >= 0.0 && y >= 0.0
    ensures !Outside(SpawnX(fromLeft, width), y, width, height)
  {
  }

  /** The wrapped angle lies in (-180, 180] and differs from the angle by a
      whole number of turns. */
  lemma WrapSpec(d: real)
    ensures -180.0 < Wrap(d) <= 180.0
    ensures exists k: int :: Wrap(d) == d - Turns(k)
  {
    var f := (d / 360.0).Floor;
    assert 360.0 * (f as real) <= d < 360.0 * (f as real) + 360.0;
    if d - 360.0 * (f as real) > 180.0 {
      assert Wrap(d) == d - Turns(f + 1);
    } else {
      assert Wrap(d) == d - Turns(f);
    }
  }

  /** An angle already a whole number of turns away from a value in
      (-180, 180] wraps to that value. */
  lemma WrapUnique(d: real, k: int)
    requires -180.0 < d - Turns(k) <= 180.0
    ensures Wrap(d) == d - Turns(k)
  {
    WrapSpec(d);
    var j: int :| Wrap(d) == d - Turns(j);
    var n := j - k;
    assert Turns(j) - Turns(k) == 360.0 * (n as real);
    assert -1.0 < n as real < 1.0;
  }

  /** With the tip and the hilt found, the sword is shown, closes 45% of its
      distance to the tip in each coordinate, and its remaining turn to the
      target angle, taken the short way round, shrinks to 82%. Without them
      it is hidden and does not move. */
  lemma SwordEases(p: Pose, high: Option<Point>, low: Option<Point>, heading: real)
    ensures SwordAfter(p, high, low, heading).visible <==> high.Some? && low.Some?
    ensures !(high.Some? && low.Some?) ==> SwordAfter(p, high, low, heading) == p.(visible := false)
    ensures high.Some? && low.Some? ==>
      var q := SwordAfter(p, high, low, heading);
      var angle := SwordAngle(high.value, low.value, heading);
      && q.x - high.value.x == 0.55 * (p.x - high.value.x)
      && q.y - high.value.y == 0.55 * (p.y - high.value.y)
      && Wrap(angle - q.rotation) == 0.82 * Wrap(angle - p.rotation)
  {
    if high.Some? && low.Some? {
      var q := SwordAfter(p, high, low, heading);
      var angle := SwordAngle(high.value, low.value, heading);
      var w := Wrap(angle - p.rotation);
      WrapSpec(angle - p.rotation);
      var k: int :| w == angle - p.rotation - Turns(k);
      assert angle - q.rotation - Turns(k) == 0.82 * w;
      WrapUnique(angle - q.rotation, k);
    }
  }

  /** The score after one more slice. */
  lemma SliceStep(start: Progress, sliced: seq<GameObject>, o: GameObject)
    ensures PointsOf(sliced + [o]) == PointsOf(sliced) + [o.points]
    ensures GainAll(start, PointsOf(sliced + [o])) == Gain(GainAll(start, PointsOf(sliced)), o.points)
  {
    assert (sliced + [o])[..|sliced|] == sliced;
    GainAllAppend(start, PointsOf(sliced), [o.points]);
  }

}
