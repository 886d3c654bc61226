/** Constants, points and the level-size rule shared by the rest of the model.
    Coordinates are integer canvas pixels and times are integer milliseconds. */
module Settings {

  datatype Option<T> = None | Some(value: T)

  datatype Point = Point(x: int, y: int)

  /** Radius of a drawn target circle, in pixels. */
  const TargetRadius: int := 50
  /** A fingertip closer than this to a target's centre touches it. */
  const TouchThreshold: int := 80
  /** How long the wrong-touch phase holds before play resumes (ms). */
  const WrongModalDuration: int := 2000
  /** Countdown for each target (10 seconds, in ms). */
  const TargetTimeLimit: int := 10000
  /** Distance kept between targets and the left, right and top edges. */
  const Margin: int := 80
  /** Candidate positions tried per target before the last one is kept. */
  const MaxAttempts: nat := 100
  /** Upper bound on targets in a level. */
  const MaxTargets: int := 8
  /** A particle advances by 0.05 per frame; twenty advances reach 1
      (in binary floating point the twentieth sum is 1.0000000000000002). */
  const ParticleSteps: nat := 20
  /** Where a celebration particle flies to (the score display). */
  const ProgressAnchor: Point := Point(100, 60)

  /** Squared Euclidean distance; comparing it with a squared bound is the
      same test as comparing the distance with the bound. */
  function DistSq(a: Point, b: Point): int
  {
    (a.x - b.x) * (a.x - b.x) + (a.y - b.y) * (a.y - b.y)
  }

  /** Targets in a level: one more than the level number, capped at eight. */
  function TargetsFor(level: int): int
  {
    if 2 + level - 1 < MaxTargets then 2 + level - 1 else MaxTargets
  }

  /** How many targets the layout loop places: as many as TargetsFor
      says, none when that is negative. */
  function LayoutSize(level: int): nat
  {
    if TargetsFor(level) < 0 then 0 else TargetsFor(level)
  }

  lemma TargetsForRange(level: int)
    requires level >= 1
    ensures 2 <= TargetsFor(level) <= MaxTargets
    ensures TargetsFor(level) == (if level + 1 < 8 then level + 1 else 8)
  {
  }

  lemma TargetsForMonotone(a: int, b: int)
    requires a <= b
    ensures TargetsFor(a) <= TargetsFor(b)
    ensures TargetsFor(b) < MaxTargets ==> TargetsFor(a) < TargetsFor(b) || a == b
  {
  }

  /** The countdown shown to the player: remaining milliseconds rounded up
      to whole seconds. */
  function DisplayedSeconds(ms: int): (secs: int)
    requires ms >= 0
    ensures secs >= 0
    ensures (secs - 1) * 1000 < ms <= secs * 1000
  {
    (ms + 999) / 1000
  }
}
