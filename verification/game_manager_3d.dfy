/** The 3D game: a list of characters, a game clock, and once a frame an
    update of every character not marked for deletion followed by at most
    one attack between the first two characters that are shown and alive.
    The clock's time, the fail roll and the damage roll are parameters. */
module Battle {
  import opened Seqs
  import opened Geometry
  import opened Characters

  /** Two characters closer than this recognise each other. */
  const InteractionDistance := 150.0

  /** An attack fails when the roll is below this. */
  const FailChance := 0.1

  /** Who attacks in a pairing. */
  datatype Strike = NoStrike | FirstStrikes | SecondStrikes

  /** The characters that are shown and alive, in list order. */
  function Fighters(chars: seq<Character>): seq<Character>
    reads set c | c in chars
  {
    if chars == [] then []
    else (if chars[0].isVisible && chars[0].health > 0 then [chars[0]] else []) + Fighters(chars[1..])
  }

  /** The characters not marked for deletion, in list order. */
  function Live(chars: seq<Character>): seq<Character>
    reads set c | c in chars
  {
    if chars == [] then []
    else (if !chars[0].deleteFlag then [chars[0]] else []) + Live(chars[1..])
  }

  /** Both markers have a position and they are at most the interaction
      distance apart, compared squared. */
  predicate Close(a: Option<Point>, b: Option<Point>)
  {
    a.Some? && b.Some? && Dist2(a.value, b.value) <= InteractionDistance * InteractionDistance
  }

  /** The attack rule for a pair: the first attacks when it can and the
      second is alive; otherwise the second attacks when it can and the
      first is alive; a roll below the fail chance cancels the attack. */
  function Decide(close: bool, firstReady: bool, secondReady: bool, firstHealth: int, secondHealth: int, roll: real): Strike
  {
    if !close then NoStrike
    else if firstReady && secondHealth > 0 then
      (if roll < FailChance then NoStrike else FirstStrikes)
    else if secondReady && firstHealth > 0 then
      (if roll < FailChance then NoStrike else SecondStrikes)
    else NoStrike
  }

  /** A character's status once the frame's updates are done, from its
      status and marker cache when the frame began: advanced by one frame
      unless it was marked for deletion. */
  function Framed(s: Status, cache: MarkerCache, dt: real, now: real): Status
  {
    if s.deleted then s else Advance(s, now - cache.lastSeen, cache.viewMatrix.Some?, dt)
  }

  /** The attack rule applied to a list of fighters: the first two of them,
      in the order the rule picks, or nobody. */
  function Pair(v: seq<Character>, now: real, roll: real): (r: Option<(Character, Character)>)
    reads set c | c in v
    ensures r.Some? ==> |v| >= 2 && (r.value == (v[0], v[1]) || r.value == (v[1], v[0]))
  {
    if |v| < 2 then None
    else
      match Decide(Close(v[0].markerPosition, v[1].markerPosition), v[0].CanAttack(now), v[1].CanAttack(now),
                   v[0].health, v[1].health, roll)
      case NoStrike => None
      case FirstStrikes => Some((v[0], v[1]))
      case SecondStrikes => Some((v[1], v[0]))
  }

  /** The characters that will be shown and alive once the frame's updates
      are done, in list order. */
  function FramedFighters(chars: seq<Character>, dt: real, now: real): (r: seq<Character>)
    reads set c | c in chars
    ensures forall c :: c in r ==> c in chars
  {
    if chars == [] then []
    else
      var f := Framed(chars[0].State(), chars[0].Cache(), dt, now);
      (if f.visible && f.vitals.health > 0 then [chars[0]] else []) + FramedFighters(chars[1..], dt, now)
  }

  /** The pair that will fight once the frame's updates are done, if any. */
  function FramedStrikers(chars: seq<Character>, dt: real, now: real, roll: real): Option<(Character, Character)>
    reads set c | c in chars
  {
    Pair(FramedFighters(chars, dt, now), now, roll)
  }

  /** A character's model scale once the frame's updates are done, from its
      status when the frame began and once its own update is done: it
      follows the death animation of a character that was dying. */
  function FramedScale(s: Status, framed: Status, scale: real, original: real): real
  {
    if !s.deleted && Dying(s.vitals) then DeathScale(framed.vitals.deathTime, original) else scale
  }

  /** One update of a character over a call: its status advances by one
      frame, its model shrinks while it dies, its marker cache, its marker
      position and the record of its last attack stay. */
  twostate predicate Stepped(c: Character, dt: real, now: real)
    reads c, c.model
  {
    && c.State() == Advance(old(c.State()), now - c.lastMarkerSeenTime, c.cachedViewMatrix.Some?, dt)
    && c.model.scalingFactor
       == (if Dying(old(c.Condition())) then DeathScale(c.deathAnimationTime, c.originalScale) else old(c.model.scalingFactor))
    && c.Cache() == old(c.Cache())
    && c.lastAttackTime == old(c.lastAttackTime) && c.targetCharacter == old(c.targetCharacter)
    && c.markerPosition == old(c.markerPosition)
  }

  /** The characters' side of one frame, over a call. The pair that
      fights, if any, is the one the attack rule picks from the statuses
      the frame began with, and is two different characters of the list.
      Every other character is updated, or left untouched when it was
      marked for deletion. The attacker's attack starts at now against the
      target, on top of its own update; the target is hurt on top of its
      own update and keeps the record of its own last attack. Every marker
      cache and marker position stays, and every model's scale follows the
      death animation of a character that was dying. */
  twostate predicate Played(chars: seq<Character>, dt: real, now: real, roll: real, damage: int,
                            new strike: Option<(Character, Character)>)
    reads set c | c in chars, set c | c in chars :: c.model
  {
    && strike == old(FramedStrikers(chars, dt, now, roll))
    && (strike.Some? ==> strike.value.0 in chars && strike.value.1 in chars && strike.value.0 != strike.value.1)
    && (forall c :: c in chars && (strike.None? || (c != strike.value.0 && c != strike.value.1)) ==>
          && (old(c.deleteFlag) ==> unchanged(c) && unchanged(c.model))
          && (!old(c.deleteFlag) ==> Stepped(c, dt, now)))
    && (forall c :: c in chars ==> c.Cache() == old(c.Cache()) && c.markerPosition == old(c.markerPosition))
    && (forall c :: c in chars ==>
          c.model.scalingFactor
          == FramedScale(old(c.State()), Framed(old(c.State()), old(c.Cache()), dt, now), old(c.model.scalingFactor), c.originalScale))
    && (strike.Some? ==>
          var (a, b) := strike.value;
          var fa, fb := Framed(old(a.State()), old(a.Cache()), dt, now), Framed(old(b.State()), old(b.Cache()), dt, now);
          && a.isVisible == fa.visible && a.markerCurrentlyDetected == fa.detected && a.deleteFlag == fa.deleted
          && a.isAttacking && a.attackAnimationTime == 0.0 && a.lastAttackTime == now && a.targetCharacter == b
          && a.Condition() == fa.vitals
          && b.isVisible == fb.visible && b.markerCurrentlyDetected == fb.detected && b.deleteFlag == fb.deleted
          && b.isAttacking == fb.attacking && b.attackAnimationTime == fb.attackTime
          && b.Condition() == Hurt(fb.vitals, damage)
          && b.lastAttackTime == old(b.lastAttackTime) && b.targetCharacter == old(b.targetCharacter))
  }

  class GameManager {
    var characters: seq<Character>
    var gameTime: real

    /** Every character, and every character's model, is in the list once. */
    ghost predicate Valid()
      reads this
    {
      && Distinct(characters)
      && forall c, d :: c in characters && d in characters && c != d ==> c.model != d.model
    }

    ghost function Chars(): set<Character>
      reads this
    {
      set c | c in characters
    }

    ghost function Models(): set<Model>
      reads this
    {
      set c | c in characters :: c.model
    }

    constructor()
      ensures characters == [] && gameTime == 0.0 && Valid()
    {
      characters := [];
      gameTime := 0.0;
    }

    /** Appends a character; the list stays free of repeats when the
        character and its model are new to it. */
    method AddCharacter(c: Character)
      modifies this`characters
      ensures characters == old(characters) + [c]
      ensures old(Valid()) && c !in old(characters) && (forall d :: d in old(characters) ==> d.model != c.model) ==> Valid()
    {
      characters := characters + [c];
    }

    /** The pair that fights and who attacks whom, if anyone. */
    ghost function Strikers(now: real, roll: real): (r: Option<(Character, Character)>)
      reads this, Chars()
      ensures r.Some? ==> r.value.0 in characters && r.value.1 in characters
      ensures r.Some? && Distinct(characters) ==> r.value.0 != r.value.1
    {
      FightersSpec(characters);
      Pair(Fighters(characters), now, roll)
    }

    /** One frame: the game clock moves on, every character not marked for
        deletion is updated, and then the first two characters shown and
        alive may fight. The pair that fights, if any, is returned: the
        attacker's animation starts and the target is hurt, on top of their
        own updates. Every other character is updated, or left untouched
        when it was marked for deletion. */
    method Update(dt: real, now: real, roll: real, damage: int) returns (ghost strike: Option<(Character, Character)>)
      requires Valid() && 15 <= damage <= 25
      modifies this`gameTime, Chars(), Models()
      ensures gameTime == old(gameTime) + dt && characters == old(characters)
      ensures Played(characters, dt, now, roll, damage, strike)
    {
      // Nothing in the frame reads the game clock, so moving it on last
      // leaves the frame as it is.
      strike := Tick(dt, now, roll, damage);
      gameTime := gameTime + dt;
    }

    /** The characters' part of a frame: every character not marked for
        deletion is updated, and then the first two shown and alive may
        fight. */
    method Tick(dt: real, now: real, roll: real, damage: int) returns (ghost strike: Option<(Character, Character)>)
      requires Valid() && 15 <= damage <= 25
      modifies Chars(), Models()
      ensures Played(characters, dt, now, roll, damage, strike)
    {
      UpdateCharacters(dt, now);
      StrikersFramed(Frame(characters, dt, now, roll));
      label stepped:
      strike := CheckCharacterInteractions(now, roll, damage);
      if strike.Some? {
        var (a, b) := strike.value;
        assert old@stepped(a.State()) == Framed(old(a.State()), old(a.Cache()), dt, now);
        assert old@stepped(b.State()) == Framed(old(b.State()), old(b.Cache()), dt, now);
      }
      forall c | c in characters
        ensures c.Cache() == old(c.Cache()) && c.markerPosition == old(c.markerPosition)
        ensures c.model.scalingFactor
                == FramedScale(old(c.State()), Framed(old(c.State()), old(c.Cache()), dt, now), old(c.model.scalingFactor), c.originalScale)
      {
        assert old@stepped(c.Cache()) == old(c.Cache());
        assert c.model.scalingFactor == old@stepped(c.model.scalingFactor);
      }
      forall c | c in characters && (strike.None? || (c != strike.value.0 && c != strike.value.1))
        ensures && (old(c.deleteFlag) ==> unchanged(c) && unchanged(c.model))
                && (!old(c.deleteFlag) ==> Stepped(c, dt, now))
      {
        assert unchanged@stepped(c, c.model);
      }
    }

    /** Updates the characters that were not marked for deletion when the
        frame began, and no others. */
    method UpdateCharacters(dt: real, now: real)
      requires Valid()
      modifies Chars(), Models()
      ensures forall c :: c in characters && !old(c.deleteFlag) ==> Stepped(c, dt, now)
      ensures forall c :: c in characters && old(c.deleteFlag) ==> unchanged(c) && unchanged(c.model)
      ensures forall c :: c in characters ==>
        && c.State() == Framed(old(c.State()), old(c.Cache()), dt, now) && c.Cache() == old(c.Cache())
        && c.lastAttackTime == old(c.lastAttackTime) && c.targetCharacter == old(c.targetCharacter)
        && c.markerPosition == old(c.markerPosition)
      ensures forall c :: c in characters ==>
        c.model.scalingFactor == FramedScale(old(c.State()), c.State(), old(c.model.scalingFactor), c.originalScale)
    {
      LiveSpec(characters);
      var live := Live(characters);
      StepAll(live, dt, now);
    }

    /** Updates each character of a list whose characters and models are
        all different, one after the other. */
    static method StepAll(live: seq<Character>, dt: real, now: real)
      requires Distinct(live)
      requires forall j, k :: 0 <= j < k < |live| ==> live[j].model != live[k].model
      modifies set c | c in live, set c | c in live :: c.model
      ensures forall j :: 0 <= j < |live| ==> Stepped(live[j], dt, now)
    {
      for i := 0 to |live|
        invariant forall j :: 0 <= j < i ==> Stepped(live[j], dt, now)
        invariant forall j :: i <= j < |live| ==> unchanged(live[j]) && unchanged(live[j].model)
      {
        var c := live[i];
        label before:
        Step(c, dt, now);
        forall j | 0 <= j < i
          ensures Stepped(live[j], dt, now)
        {
          assert unchanged@before(live[j], live[j].model);
        }
      }
    }

    /** One character's update, seen as a whole. */
    static method Step(c: Character, dt: real, now: real)
      modifies c, c.model
      ensures Stepped(c, dt, now)
    {
      c.Update(dt, now);
    }

    /** The fight between the first two characters shown and alive: at most
        one attack, by the one the rule picks, and nobody else is touched. */
    method CheckCharacterInteractions(now: real, roll: real, damage: int) returns (ghost s: Option<(Character, Character)>)
      requires Valid() && 15 <= damage <= 25
      modifies Chars()`isAttacking, Chars()`attackAnimationTime, Chars()`lastAttackTime, Chars()`targetCharacter,
               Chars()`health, Chars()`isDefeated, Chars()`deathAnimationTime
      ensures s == old(Strikers(now, roll))
      ensures forall c :: c in characters ==> c.Cache() == old(c.Cache()) && c.markerPosition == old(c.markerPosition)
      ensures s.Some? ==> s.value.0 in characters && s.value.1 in characters
      ensures s.Some? ==>
          var (a, b) := s.value;
          && a != b
          && a.State() == old(a.State()).(attacking := true, attackTime := 0.0)
          && a.lastAttackTime == now && a.targetCharacter == b
          && b.State() == old(b.State()).(vitals := Hurt(old(b.State()).vitals, damage))
          && b.lastAttackTime == old(b.lastAttackTime) && b.targetCharacter == old(b.targetCharacter)
      ensures forall c :: c in characters && (s.None? || (c != s.value.0 && c != s.value.1)) ==> unchanged(c)
    {
      s := Strikers(now, roll);
      var visible := Fighters(characters);
      FightersSpec(characters);
      if |visible| >= 2 {
        var c1, c2 := visible[0], visible[1];
        if c1.markerPosition.Some? && c2.markerPosition.Some? {
          var distance2 := Dist2(c1.markerPosition.value, c2.markerPosition.value);
          if distance2 <= InteractionDistance * InteractionDistance {
            if c1.CanAttack(now) && c2.health > 0 {
              if !(roll < FailChance) {
                c1.Attack(c2, now, damage);
              }
            } else if c2.CanAttack(now) && c1.health > 0 {
              if !(roll < FailChance) {
                c2.Attack(c1, now, damage);
              }
            }
          }
        }
      }
      forall c | c in characters
        ensures c.Cache() == old(c.Cache()) && c.markerPosition == old(c.markerPosition)
      {
        assert c.lastMarkerSeenTime == old(c.lastMarkerSeenTime);
      }
    }
  }

  /** The fighters are exactly the characters of the list that are shown
      and alive, none twice if the list has no repeats. */
  lemma {:induction false} FightersSpec(chars: seq<Character>)
    ensures forall c :: c in Fighters(chars) ==> c in chars && c.isVisible && c.health > 0
    ensures forall c :: c in chars && c.isVisible && c.health > 0 ==> c in Fighters(chars)
    ensures Distinct(chars) ==> Distinct(Fighters(chars))
  {
    if chars != [] {
      FightersSpec(chars[1..]);
      assert chars == [chars[0]] + chars[1..];
    }
  }

  /** Fighters keep list order: those of a list made of two parts are those
      of the first part followed by those of the second. */
  lemma {:induction false} FightersAppend(a: seq<Character>, b: seq<Character>)
    ensures Fighters(a + b) == Fighters(a) + Fighters(b)
  {
    if a == [] {
      assert a + b == b;
    } else {
      assert (a + b)[1..] == a[1..] + b;
      FightersAppend(a[1..], b);
    }
  }

  /** A frame's own update never changes a character's health or whether
      it is defeated. */
  lemma FramedKeepsVitals(s: Status, cache: MarkerCache, dt: real, now: real)
    ensures Framed(s, cache, dt, now).vitals.health == s.vitals.health
    ensures Framed(s, cache, dt, now).vitals.defeated == s.vitals.defeated
  {
  }

  /** What a frame's fight depends on: the characters, the frame's length,
      the clock's time and the fail roll. */
  datatype Frame = Frame(chars: seq<Character>, dt: real, now: real, roll: real)

  /** Once every character's own update is done, the fighters are those
      foreseen from the statuses the frame began with. */
  twostate lemma {:induction false} FightersFramed(f: Frame)
    requires forall c :: c in f.chars ==> c.State() == Framed(old(c.State()), old(c.Cache()), f.dt, f.now)
    ensures Fighters(f.chars) == old(FramedFighters(f.chars, f.dt, f.now))
    decreases |f.chars|
  {
    if f.chars != [] {
      FightersFramed(f.(chars := f.chars[1..]));
    }
  }

  /** Once every character's own update is done, the attack rule picks the
      pair foreseen from the statuses the frame began with: the rule reads
      only the fighters' marker positions, the times of their last attacks
      and their health, and a frame's own update changes none of them. */
  twostate lemma StrikersFramed(f: Frame)
    requires forall c :: c in f.chars ==>
      && c.State() == Framed(old(c.State()), old(c.Cache()), f.dt, f.now)
      && c.markerPosition == old(c.markerPosition) && c.lastAttackTime == old(c.lastAttackTime)
    ensures Pair(Fighters(f.chars), f.now, f.roll) == old(FramedStrikers(f.chars, f.dt, f.now, f.roll))
  {
    FightersFramed(f);
    forall c | c in f.chars
      ensures c.health == old(c.health)
    {
      FramedKeepsVitals(old(c.State()), old(c.Cache()), f.dt, f.now);
    }
    FightersSpec(f.chars);
  }

  /** The live characters are exactly those of the list not marked for
      deletion, none twice if the list has no repeats. */
  lemma {:induction false} LiveSpec(chars: seq<Character>)
    ensures forall c :: c in Live(chars) ==> c in chars && !c.deleteFlag
    ensures forall c :: c in chars && !c.deleteFlag ==> c in Live(chars)
    ensures Distinct(chars) ==> Distinct(Live(chars))
  {
    if chars != [] {
      LiveSpec(chars[1..]);
      assert chars == [chars[0]] + chars[1..];
    }
  }

  /** Far apart or without positions nobody attacks; a failed roll cancels
      the attack of either side; the first character attacks exactly when
      it can, the second is alive and the roll succeeds; the second attacks
      only when the first cannot attack the second. */
  lemma DecideSpec(close: bool, firstReady: bool, secondReady: bool, firstHealth: int, secondHealth: int, roll: real)
    ensures !close ==> Decide(close, firstReady, secondReady, firstHealth, secondHealth, roll) == NoStrike
    ensures roll < FailChance ==> Decide(close, firstReady, secondReady, firstHealth, secondHealth, roll) == NoStrike
    ensures Decide(close, firstReady, secondReady, firstHealth, secondHealth, roll) == FirstStrikes
      <==> close && firstReady && secondHealth > 0 && roll >= FailChance
    ensures Decide(close, firstReady, secondReady, firstHealth, secondHealth, roll) == SecondStrikes
      <==> close && !(firstReady && secondHealth > 0) && secondReady && firstHealth > 0 && roll >= FailChance
  {
  }

  /** Markers closer than the interaction distance are close, markers
      farther away are not, and a missing position is never close. */
  lemma CloseSpec(a: Point, b: Point)
    ensures Dist2(a, b) <= 22500.0 <==> Close(Some(a), Some(b))
    ensures !Close(None, Some(b)) && !Close(Some(a), None)
  {
  }
}
