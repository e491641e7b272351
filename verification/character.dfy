/** A fighter of the 3D game, bound to one marker: it stays visible for a
    second after its marker was last seen, loses health when hit, attacks at
    most once every two seconds, and shrinks away over two seconds once
    defeated. The clock's time and the damage roll come in as parameters. */
module Characters {
  import opened Seqs
  import opened Geometry

  const MaxHealth := 100

  /** Seconds a marker stays cached after it was last seen. */
  const CacheDuration := 1.0

  /** Seconds between two attacks of one character. */
  const AttackCooldown := 2.0

  /** Seconds an attack animation lasts. */
  const AttackDuration := 1.0

  /** Seconds a defeated character takes to shrink away. */
  const DeathDuration := 2.0

  /** The smallest scale the death animation gives the model. */
  const MinScale := 0.01

  /** The 3D model a character is drawn with; only its scale is touched
      here. */
  class Model {
    var scalingFactor: real

    constructor(scalingFactor: real)
      ensures this.scalingFactor == scalingFactor
    {
      this.scalingFactor := scalingFactor;
    }
  }

  /** A marker's view matrix, entry by entry; it is copied, never read. */
  type ViewMatrix = seq<real>

  /** What is cached of the last sighting of the marker. */
  datatype MarkerCache = MarkerCache(lastSeen: real, viewMatrix: Option<ViewMatrix>, position: Option<Point>, markerLength: Option<real>)

  /** The marker data handed to the renderer. */
  datatype MarkerData = MarkerData(viewMatrix: Option<ViewMatrix>, position: Option<Point>, markerLength: Option<real>)

  const NoMarkerData := MarkerData(None, None, None)

  /** Health and defeat. */
  datatype Vitals = Vitals(health: int, defeated: bool, deathTime: real)

  /** What one frame's update reads and writes. */
  datatype Status = Status(visible: bool, detected: bool, attacking: bool, attackTime: real, vitals: Vitals, deleted: bool)

  function Max(a: int, b: int): int
  {
    if a >= b then a else b
  }

  function MaxReal(a: real, b: real): real
  {
    if a >= b then a else b
  }

  function MinReal(a: real, b: real): real
  {
    if a <= b then a else b
  }

  /** Whether a character should be shown: when its marker is seen in this
      frame, or was seen at most a second ago and a view matrix is cached. */
  function CacheVisible(detected: bool, sinceSeen: real, cached: bool): bool
  {
    if detected then true
    else if sinceSeen <= CacheDuration && cached then true
    else false
  }

  /** A hit: health goes down by the damage but not below zero, and the
      first time it reaches zero the character is defeated and its death
      timer starts from zero. */
  function Hurt(v: Vitals, damage: int): Vitals
  {
    var health := Max(0, v.health - damage);
    if health <= 0 && !v.defeated then Vitals(health, true, 0.0)
    else v.(health := health)
  }

  /** The death animation runs while the character is defeated with no
      health left. */
  predicate Dying(v: Vitals)
  {
    v.defeated && !(v.health > 0)
  }

  /** The attack animation after dt more seconds: it stops, with its timer
      back at zero, once the timer reaches a second. */
  function AttackTimer(attacking: bool, t: real, dt: real): (bool, real)
  {
    if !attacking then (attacking, t)
    else if t + dt >= AttackDuration then (false, 0.0)
    else (true, t + dt)
  }

  /** The first half of a frame's update: the detection flag is cleared
      before the visibility is worked out, so only the cache counts, and
      the attack animation moves on. */
  function Animated(s: Status, sinceSeen: real, cached: bool, dt: real): Status
  {
    var timer := AttackTimer(s.attacking, s.attackTime, dt);
    s.(visible := CacheVisible(false, sinceSeen, cached), detected := false,
       attacking := timer.0, attackTime := timer.1)
  }

  /** The second half: for a dying character the death animation moves on,
      and a finished death hides the character and marks it for deletion. */
  function Declined(s: Status, dt: real): Status
  {
    if Dying(s.vitals) then
      var t := s.vitals.deathTime + dt;
      if t >= DeathDuration then s.(vitals := s.vitals.(deathTime := t), visible := false, deleted := true)
      else s.(vitals := s.vitals.(deathTime := t))
    else s
  }

  /** One frame's update: the first half, then the second. */
  function Advance(s: Status, sinceSeen: real, cached: bool, dt: real): Status
  {
    Declined(Animated(s, sinceSeen, cached, dt), dt)
  }

  /** The model's scale t seconds into the death animation. */
  function DeathScale(t: real, original: real): real
  {
    var progress := MinReal(1.0, t / DeathDuration);
    MaxReal(MinScale, (1.0 - progress) * original)
  }

  /** The target of an attack, if there is one. */
  function Targets(target: Character?): set<Character>
  {
    if target == null then {} else {target}
  }

  class Character {
    const model: Model
    const characterId: int
    const name: string
    var markerPosition: Option<Point>
    var isVisible: bool
    var lastAttackTime: real
    var isAttacking: bool
    var attackAnimationTime: real
    var targetCharacter: Character?
    var deleteFlag: bool
    var health: int
    var isDefeated: bool
    var deathAnimationTime: real
    const originalScale: real
    var lastMarkerSeenTime: real
    var cachedViewMatrix: Option<ViewMatrix>
    var cachedPosition: Option<Point>
    var cachedMarkerLength: Option<real>
    var markerCurrentlyDetected: bool

    /** Health between zero and the maximum, and defeated exactly when it
        is zero. */
    ghost predicate Valid()
      reads this
    {
      0 <= health <= MaxHealth && (isDefeated <==> health == 0)
    }

    function Condition(): Vitals
      reads this
    {
      Vitals(health, isDefeated, deathAnimationTime)
    }

    function State(): Status
      reads this
    {
      Status(isVisible, markerCurrentlyDetected, isAttacking, attackAnimationTime, Condition(), deleteFlag)
    }

    function Cache(): MarkerCache
      reads this
    {
      MarkerCache(lastMarkerSeenTime, cachedViewMatrix, cachedPosition, cachedMarkerLength)
    }

    /** A new character: full health, hidden, idle, nothing cached, and the
        model's current scale kept as the one to shrink from. */
    constructor(model: Model, characterId: int, name: string)
      ensures Valid()
      ensures this.model == model && this.characterId == characterId && this.name == name
      ensures State() == Status(false, false, false, 0.0, Vitals(MaxHealth, false, 0.0), false)
      ensures Cache() == MarkerCache(0.0, None, None, None) && markerPosition == None
      ensures lastAttackTime == 0.0 && targetCharacter == null && originalScale == model.scalingFactor
    {
      this.model := model;
      this.characterId := characterId;
      this.name := name;
      markerPosition := None;
      isVisible := false;
      lastAttackTime := 0.0;
      isAttacking := false;
      attackAnimationTime := 0.0;
      targetCharacter := null;
      deleteFlag := false;
      health := MaxHealth;
      isDefeated := false;
      deathAnimationTime := 0.0;
      originalScale := model.scalingFactor;
      lastMarkerSeenTime := 0.0;
      cachedViewMatrix := None;
      cachedPosition := None;
      cachedMarkerLength := None;
      markerCurrentlyDetected := false;
    }

    /** Records a sighting of the marker at time now. */
    method UpdateMarkerData(now: real, viewMatrix: Option<ViewMatrix>, position: Option<Point>, markerLength: Option<real>)
      modifies this`lastMarkerSeenTime, this`markerCurrentlyDetected, this`cachedViewMatrix,
               this`cachedPosition, this`cachedMarkerLength, this`markerPosition
      ensures Cache() == MarkerCache(now, viewMatrix, position, markerLength)
      ensures markerCurrentlyDetected && markerPosition == position
      ensures old(Valid()) ==> Valid()
    {
      lastMarkerSeenTime := now;
      markerCurrentlyDetected := true;
      cachedViewMatrix := viewMatrix;
      cachedPosition := position;
      cachedMarkerLength := markerLength;
      markerPosition := position;
    }

    function ShouldBeVisible(now: real): bool
      reads this
    {
      CacheVisible(markerCurrentlyDetected, now - lastMarkerSeenTime, cachedViewMatrix.Some?)
    }

    /** The cached marker data while the character should be shown, and
        nothing otherwise. */
    function CurrentMarkerData(now: real): (r: MarkerData)
      reads this
      ensures ShouldBeVisible(now) ==> r == MarkerData(cachedViewMatrix, cachedPosition, cachedMarkerLength)
      ensures !ShouldBeVisible(now) ==> r == NoMarkerData
    {
      if markerCurrentlyDetected then MarkerData(cachedViewMatrix, cachedPosition, cachedMarkerLength)
      else if ShouldBeVisible(now) then MarkerData(cachedViewMatrix, cachedPosition, cachedMarkerLength)
      else NoMarkerData
    }

    /** One frame: the animations move on by dt seconds, and a dying
        character's model shrinks. The cache, the attack record and the
        marker position stay. */
    method Update(dt: real, now: real)
      modifies this`markerCurrentlyDetected, this`isVisible, this`isAttacking, this`attackAnimationTime,
               this`deathAnimationTime, this`deleteFlag, model`scalingFactor
      ensures State() == Advance(old(State()), now - lastMarkerSeenTime, cachedViewMatrix.Some?, dt)
      ensures model.scalingFactor
        == if Dying(old(Condition())) then DeathScale(deathAnimationTime, originalScale) else old(model.scalingFactor)
      ensures old(Valid()) ==> Valid()
    {
      Animate(dt, now);
      Decline(dt);
    }

    /** The first half of a frame: the detection flag is cleared, the
        visibility is worked out from the cache, and a running attack
        animation moves on and stops after its duration. */
    method Animate(dt: real, now: real)
      modifies this`markerCurrentlyDetected, this`isVisible, this`isAttacking, this`attackAnimationTime
      ensures State() == Animated(old(State()), now - lastMarkerSeenTime, cachedViewMatrix.Some?, dt)
    {
      markerCurrentlyDetected := false;
      isVisible := ShouldBeVisible(now);
      if isAttacking {
        attackAnimationTime := attackAnimationTime + dt;
        if attackAnimationTime >= AttackDuration {
          isAttacking := false;
          attackAnimationTime := 0.0;
        }
      }
    }

    /** The second half: a dying character's death animation moves on, its
        model shrinks, and once the animation is over it is hidden and
        marked for deletion. */
    method Decline(dt: real)
      modifies this`deathAnimationTime, this`isVisible, this`deleteFlag, model`scalingFactor
      ensures State() == Declined(old(State()), dt)
      ensures model.scalingFactor
        == if Dying(old(Condition())) then DeathScale(deathAnimationTime, originalScale) else old(model.scalingFactor)
    {
      if isDefeated && !(health > 0) {
        deathAnimationTime := deathAnimationTime + dt;
        model.scalingFactor := DeathScale(deathAnimationTime, originalScale);
        if deathAnimationTime >= DeathDuration {
          isVisible := false;
          deleteFlag := true;
        }
      }
    }

    /** At least the cooldown has passed since the last attack. */
    predicate CanAttack(now: real)
      reads this
    {
      now - lastAttackTime >= AttackCooldown
    }

    /** An attack on the target, when the cooldown allows it and there is a
        target: the animation starts, the time and the target are recorded
        and the target takes the damage roll. Otherwise nothing changes. */
    method Attack(target: Character?, now: real, damage: int)
      requires 15 <= damage <= 25
      modifies this`isAttacking, this`attackAnimationTime, this`lastAttackTime, this`targetCharacter,
               Targets(target)`health, Targets(target)`isDefeated, Targets(target)`deathAnimationTime
      ensures old(CanAttack(now)) && target != null ==>
        && isAttacking && attackAnimationTime == 0.0 && lastAttackTime == now && targetCharacter == target
        && target.Condition() == Hurt(old(target.Condition()), damage)
      ensures !(old(CanAttack(now)) && target != null) ==>
        && isAttacking == old(isAttacking) && attackAnimationTime == old(attackAnimationTime)
        && lastAttackTime == old(lastAttackTime) && targetCharacter == old(targetCharacter)
        && (target != null ==> target.Condition() == old(target.Condition()))
      ensures old(Valid()) ==> Valid()
      ensures target != null && old(target.Valid()) ==> target.Valid()
    {
      if CanAttack(now) && target != null {
        isAttacking := true;
        attackAnimationTime := 0.0;
        lastAttackTime := now;
        targetCharacter := target;
        target.TakeDamage(damage);
      }
    }

    /** A hit of the given damage. */
    method TakeDamage(damage: int)
      modifies this`health, this`isDefeated, this`deathAnimationTime
      ensures Condition() == Hurt(old(Condition()), damage)
      ensures old(Valid()) && damage >= 0 ==> Valid()
    {
      health := Max(0, health - damage);
      if health <= 0 && !isDefeated {
        isDefeated := true;
        deathAnimationTime := 0.0;
      }
    }
  }

  /** Health never goes negative and never rises under a hit; a character
      is defeated once, the first time its health reaches zero, and only
      then does its death timer restart. */
  lemma HurtSpec(v: Vitals, damage: int)
    ensures Hurt(v, damage).health == Max(0, v.health - damage) && Hurt(v, damage).health >= 0
    ensures damage >= 0 && v.health >= 0 ==> Hurt(v, damage).health <= v.health
    ensures Hurt(v, damage).defeated <==> v.defeated || Hurt(v, damage).health == 0
    ensures v.defeated ==> Hurt(v, damage).deathTime == v.deathTime
    ensures !v.defeated && Hurt(v, damage).defeated ==> Hurt(v, damage).deathTime == 0.0
    ensures !v.defeated && !Hurt(v, damage).defeated ==> Hurt(v, damage).deathTime == v.deathTime
  {
  }

  /** A character with full health survives three hits of 25, and four
      hits of 25 defeat it. */
  lemma FourHeavyHitsDefeat(v: Vitals)
    requires v == Vitals(MaxHealth, false, 0.0)
    ensures Hurt(Hurt(Hurt(Hurt(v, 25), 25), 25), 25).defeated
    ensures !Hurt(Hurt(Hurt(v, 25), 25), 25).defeated
  {
  }

  /** Visibility after a sighting: always while the marker is seen, and
      otherwise only within a second of the sighting and with a cached view
      matrix; a character shown at some delay is shown at every shorter
      one. */
  lemma CacheVisibleSpec(detected: bool, sinceSeen: real, cached: bool, earlier: real)
    ensures detected ==> CacheVisible(detected, sinceSeen, cached)
    ensures !detected ==> (CacheVisible(detected, sinceSeen, cached) <==> sinceSeen <= CacheDuration && cached)
    ensures !cached && !detected ==> !CacheVisible(detected, sinceSeen, cached)
    ensures earlier <= sinceSeen && CacheVisible(detected, sinceSeen, cached) ==> CacheVisible(detected, earlier, cached)
  {
  }

  /** After an update the detection flag is clear and the character is shown
      only through the cache, unless its death has just finished; health
      and defeat are untouched; and a character that is not dying keeps its
      death timer and its deletion mark. */
  lemma AdvanceVisibility(s: Status, sinceSeen: real, cached: bool, dt: real)
    ensures var r := Advance(s, sinceSeen, cached, dt);
      && !r.detected
      && (r.visible <==> sinceSeen <= CacheDuration && cached && !(Dying(s.vitals) && s.vitals.deathTime + dt >= DeathDuration))
      && r.vitals.health == s.vitals.health && r.vitals.defeated == s.vitals.defeated
      && (!Dying(s.vitals) ==> r.vitals == s.vitals && r.deleted == s.deleted)
  {
  }

  /** The attack animation stops, its timer back at zero, once the timer
      reaches a second; before that the timer runs on; an idle character
      stays idle. A timer that starts within the first second stays there. */
  lemma AttackTimerSpec(attacking: bool, t: real, dt: real)
    ensures attacking && t + dt >= AttackDuration ==> AttackTimer(attacking, t, dt) == (false, 0.0)
    ensures attacking && t + dt < AttackDuration ==> AttackTimer(attacking, t, dt) == (true, t + dt)
    ensures !attacking ==> AttackTimer(attacking, t, dt) == (false, t)
    ensures 0.0 <= t < AttackDuration && dt >= 0.0 ==> 0.0 <= AttackTimer(attacking, t, dt).1 < AttackDuration
  {
  }

  /** A dying character whose timer reaches two seconds is hidden and marked
      for deletion, and the mark is never taken back. */
  lemma DeathCompletes(s: Status, sinceSeen: real, cached: bool, dt: real)
    ensures s.deleted ==> Advance(s, sinceSeen, cached, dt).deleted
    ensures Dying(s.vitals) && s.vitals.deathTime + dt >= DeathDuration ==>
      var r := Advance(s, sinceSeen, cached, dt);
      r.deleted && !r.visible && r.vitals.deathTime == s.vitals.deathTime + dt
  {
  }

  /** The death scale never drops below the minimum, shrinks as the
      animation goes on, starts at the original scale and reaches the
      minimum when the animation ends. */
  lemma DeathScaleSpec(t: real, u: real, original: real)
    requires original >= 0.0
    ensures DeathScale(t, original) >= MinScale
    ensures 0.0 <= t <= u ==> DeathScale(u, original) <= DeathScale(t, original)
    ensures DeathScale(0.0, original) == MaxReal(MinScale, original)
    ensures t >= DeathDuration ==> DeathScale(t, original) == MinScale
  {
    if 0.0 <= t <= u {
      var p, q := MinReal(1.0, t / DeathDuration), MinReal(1.0, u / DeathDuration);
      assert p <= q;
      assert (1.0 - p) * original - (1.0 - q) * original == (q - p) * original;
      assert (q - p) * original >= 0.0;
      assert (1.0 - q) * original <= (1.0 - p) * original;
    }
  }

  /** Once a character attacks, it cannot attack again for two seconds. */
  lemma CooldownAfterAttack(c: Character, now: real, later: real)
    requires c.lastAttackTime == now && later < now + AttackCooldown
    ensures !c.CanAttack(later)
  {
  }
}
