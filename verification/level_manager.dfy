/** The rules of the level manager of the 2D game: the points needed per
    level, what a gain or a loss of points does, the countdown before the
    next level, the difficulty settings a new level writes, and the widths of
    the progress and loss bars. The class that holds this state lives with
    the game manager, which it calls back. */
module Levels {
  import opened Geometry

  /** The length of the countdown before a new level, in ticks of a second. */
  const CountdownSeconds := 3

  /** Points needed to finish a level. */
  function RequiredPoints(level: int): int
  {
    30 + (level - 1) * 10
  }

  /** The level manager's own state. */
  datatype Progress = Progress(level: int, points: int, required: int, countdownTime: int, countdownActive: bool)

  /** The state a new manager starts in. */
  const Initial := Progress(1, 0, RequiredPoints(1), 0, false)

  /** A state the manager can be in: a level from 1 on, its target, fewer
      points than the target, and a countdown within its length. */
  predicate WellFormed(p: Progress)
  {
    && p.level >= 1
    && p.required == RequiredPoints(p.level)
    && p.points < p.required
    && 0 <= p.countdownTime <= CountdownSeconds
    && (p.countdownActive ==> p.countdownTime > 0)
  }

  /** The next level: points start again from zero against the new target,
      and the countdown starts. */
  function NextLevel(p: Progress): Progress
  {
    Progress(p.level + 1, 0, RequiredPoints(p.level + 1), CountdownSeconds, true)
  }

  /** A gain reaches the target. */
  predicate LevelsUp(p: Progress, amount: int)
  {
    p.points + amount >= p.required
  }

  /** Adding points, moving to the next level when the target is reached. */
  function Gain(p: Progress, amount: int): Progress
  {
    var q := p.(points := p.points + amount);
    if q.points >= q.required then NextLevel(q) else q
  }

  /** Subtracting points; the level is never checked. */
  function Drop(p: Progress, amount: int): Progress
  {
    p.(points := p.points - amount)
  }

  /** Several gains one after the other. */
  function GainAll(p: Progress, amounts: seq<int>): Progress
    decreases |amounts|
  {
    if amounts == [] then p else GainAll(Gain(p, amounts[0]), amounts[1..])
  }

  /** A countdown tick: nothing while the countdown is off; otherwise one
      second less, and the countdown stops when it runs out. */
  function Tick(p: Progress): Progress
  {
    if !p.countdownActive then p
    else if p.countdownTime - 1 > 0 then p.(countdownTime := p.countdownTime - 1)
    else p.(countdownTime := p.countdownTime - 1, countdownActive := false)
  }

  /** The tick that ends the countdown, which turns spawning back on. */
  predicate TickEnds(p: Progress)
  {
    p.countdownActive && p.countdownTime - 1 <= 0
  }

  /** The fewest fruits a level asks of the game. */
  function MinFruits(level: int): int
  {
    if 10 + level * 2 < 20 then 10 + level * 2 else 20
  }

  /** The chance that a spawned object is a bomb. */
  function BombChance(level: int): real
  {
    if 0.2 + (level as real) * 0.03 < 0.5 then 0.2 + (level as real) * 0.03 else 0.5
  }

  /** A conversion of a real to an integer that drops the fraction, toward
      zero for negative values as well. */
  function Trunc(r: real): (n: int)
    ensures 0.0 <= r ==> 0 <= n && n as real <= r < n as real + 1.0
    ensures r < 0.0 ==> n <= 0 && n as real - 1.0 < r <= n as real
  {
    if r >= 0.0 then r.Floor else -((-r).Floor)
  }

  /** Width of the progress bar: the share of the target reached, at most the
      whole window; negative points give a negative width. */
  function PointBarWidth(p: Progress): int
    requires p.required > 0
  {
    var ratio := p.points as real / p.required as real;
    Trunc((WindowWidth as real) * (if ratio < 1.0 then ratio else 1.0))
  }

  /** Width of the loss bar: the share of the loss threshold that the points
      have fallen below zero, at most the whole window. */
  function LossBarWidth(points: int, threshold: real): int
    requires threshold > 0.0
  {
    var negative := if -points > 0 then -points else 0;
    var ratio := negative as real / threshold;
    Trunc((WindowWidth as real) * (if ratio < 1.0 then ratio else 1.0))
  }

  /** The loss bar grows leftwards from the right edge of the window. */
  function LossBarX(points: int, threshold: real): int
    requires threshold > 0.0
  {
    WindowWidth - LossBarWidth(points, threshold)
  }

  /** The target grows by ten points a level, from 30 at level 1. */
  lemma RequiredPointsGrow(level: int)
    ensures RequiredPoints(1) == 30
    ensures RequiredPoints(level + 1) == RequiredPoints(level) + 10
    ensures level >= 1 ==> RequiredPoints(level) >= 30
  {
  }

  /** A gain moves to the next level exactly when it reaches the target, and
      then at most one level: the points start from zero, so any surplus is
      lost, and the countdown starts. Otherwise only the points change. */
  lemma GainSpec(p: Progress, amount: int)
    requires WellFormed(p)
    ensures WellFormed(Gain(p, amount))
    ensures Gain(p, amount).level == if LevelsUp(p, amount) then p.level + 1 else p.level
    ensures LevelsUp(p, amount) ==> Gain(p, amount) == Progress(p.level + 1, 0, p.required + 10, 3, true)
    ensures !LevelsUp(p, amount) ==> Gain(p, amount) == p.(points := p.points + amount)
  {
  }

  /** A gain of no points or fewer never changes the level. */
  lemma {:induction false} LossesKeepLevel(p: Progress, amounts: seq<int>)
    requires WellFormed(p)
    requires forall i :: 0 <= i < |amounts| ==> amounts[i] <= 0
    ensures WellFormed(GainAll(p, amounts))
    ensures GainAll(p, amounts).level == p.level
    ensures GainAll(p, amounts).countdownActive == p.countdownActive
    decreases |amounts|
  {
    if amounts != [] {
      GainSpec(p, amounts[0]);
      LossesKeepLevel(Gain(p, amounts[0]), amounts[1..]);
    }
  }

  /** A series of gains raises the level by at most one per gain. */
  lemma {:induction false} GainAllLevels(p: Progress, amounts: seq<int>)
    requires WellFormed(p)
    ensures WellFormed(GainAll(p, amounts))
    ensures p.level <= GainAll(p, amounts).level <= p.level + |amounts|
    decreases |amounts|
  {
    if amounts != [] {
      GainSpec(p, amounts[0]);
      GainAllLevels(Gain(p, amounts[0]), amounts[1..]);
    }
  }

  /** Gains one after the other compose. */
  lemma {:induction false} GainAllAppend(p: Progress, a: seq<int>, b: seq<int>)
    ensures GainAll(p, a + b) == GainAll(GainAll(p, a), b)
    decreases |a|
  {
    if a != [] {
      assert (a + b)[1..] == a[1..] + b;
      GainAllAppend(Gain(p, a[0]), a[1..], b);
    } else {
      assert a + b == b;
    }
  }

  /** Losing points keeps the level and the target. */
  lemma DropSpec(p: Progress, amount: int)
    requires WellFormed(p) && amount >= 0
    ensures WellFormed(Drop(p, amount))
    ensures Drop(p, amount).level == p.level && Drop(p, amount).required == p.required
    ensures Drop(p, amount).points == p.points - amount
  {
  }

  /** A tick keeps the state well formed and touches only the countdown; it
      changes nothing while the countdown is off. */
  lemma TickSpec(p: Progress)
    requires WellFormed(p)
    ensures WellFormed(Tick(p))
    ensures !p.countdownActive ==> Tick(p) == p
    ensures Tick(p).level == p.level && Tick(p).points == p.points && Tick(p).required == p.required
    ensures p.countdownActive ==> Tick(p).countdownTime == p.countdownTime - 1
    ensures Tick(p).countdownActive <==> p.countdownActive && !TickEnds(p)
  {
  }

  /** After a new level the countdown runs for three ticks: the first two
      keep it going and the third ends it, turning spawning back on. */
  lemma CountdownLastsThreeTicks(p: Progress)
    ensures var q := NextLevel(p);
      && !TickEnds(q) && !TickEnds(Tick(q)) && TickEnds(Tick(Tick(q)))
      && !Tick(Tick(Tick(q))).countdownActive
      && Tick(Tick(Tick(q))).countdownTime == 0
  {
  }

  /** The difficulty a level sets is capped: at most 20 fruits and a bomb
      chance of one half, and neither decreases from one level to the next. */
  lemma DifficultyBounded(level: int)
    ensures MinFruits(level) <= 20 && MinFruits(level) <= MinFruits(level + 1)
    ensures BombChance(level) <= 0.5 && BombChance(level) <= BombChance(level + 1)
    ensures level >= 5 ==> MinFruits(level) == 20
    ensures level >= 10 ==> BombChance(level) == 0.5
  {
  }

  /** The progress bar never exceeds the window, fills it once the target is
      reached, and is empty at zero points and never negative otherwise. */
  lemma PointBarBounds(p: Progress)
    requires p.required > 0
    ensures PointBarWidth(p) <= WindowWidth
    ensures p.points >= p.required ==> PointBarWidth(p) == WindowWidth
    ensures p.points >= 0 ==> PointBarWidth(p) >= 0
    ensures p.points == 0 ==> PointBarWidth(p) == 0
    ensures p.points < 0 ==> PointBarWidth(p) <= 0
  {
    var ratio := p.points as real / p.required as real;
    if p.points >= p.required {
      assert ratio >= 1.0;
    } else if p.points >= 0 {
      assert 0.0 <= ratio < 1.0;
    } else {
      assert ratio < 0.0;
    }
  }

  /** The loss bar lies inside the window and ends at its right edge; it is
      empty while the points are not negative and full once the loss reaches
      the threshold. */
  lemma LossBarBounds(points: int, threshold: real)
    requires threshold > 0.0
    ensures 0 <= LossBarWidth(points, threshold) <= WindowWidth
    ensures LossBarX(points, threshold) + LossBarWidth(points, threshold) == WindowWidth
    ensures points >= 0 ==> LossBarWidth(points, threshold) == 0
    ensures (-points) as real >= threshold ==> LossBarWidth(points, threshold) == WindowWidth
  {
    var negative := if -points > 0 then -points else 0;
    var ratio := negative as real / threshold;
    RatioBounds(negative as real, threshold);
    var share := if ratio < 1.0 then ratio else 1.0;
    assert 0.0 <= share <= 1.0;
    assert 0.0 <= (WindowWidth as real) * share <= WindowWidth as real;
    assert LossBarWidth(points, threshold) == Trunc((WindowWidth as real) * share);
  }

  /** A non-negative amount over a positive threshold is a non-negative
      ratio, at least one once the amount reaches the threshold. */
  lemma RatioBounds(amount: real, threshold: real)
    requires threshold > 0.0 && amount >= 0.0
    ensures amount / threshold >= 0.0
    ensures amount >= threshold ==> amount / threshold >= 1.0
  {
    var r := amount / threshold;
    assert r * threshold == amount;
    if amount >= threshold && r < 1.0 {
      assert false;
    }
  }
}
