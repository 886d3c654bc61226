/** The target layout generator, as a specification: rejection sampling of
    candidate positions, giving up after 101 candidates per target, fed by a
    stream of random reals standing for successive `Math.random()` calls. */
module Layout {
  import opened Settings

  /** A numbered circle of the current level. `startTime` is set when the
      target becomes the one to touch. */
  datatype Target = Target(
    number: int,
    pos: Point,
    completed: bool,
    beingTouched: bool,
    wrong: bool,
    startTime: Option<int>)

  /** The random source: draw `k` of the page's `Math.random()` stream. */
  type RandomStream = nat -> real

  /** Minimum squared distance between two accepted targets (3 radii). */
  const MinSpacingSq: int := (3 * TargetRadius) * (3 * TargetRadius)

  /** Floor of r * span + offset, the pixel coordinate a draw r selects. */
  function Scale(r: real, span: int, offset: int): int
  {
    (r * (span as real) + (offset as real)).Floor
  }

  /** The candidate built from draws k (for x) and k + 1 (for y): x in the
      width less the side margins, y below a 100-pixel band at the top and
      above a 130-pixel band at the bottom. */
  function Candidate(random: RandomStream, k: nat, width: int, height: int): Point
  {
    Point(Scale(random(k), width - Margin * 2, Margin),
          Scale(random(k + 1), height - Margin * 2 - 150, Margin + 100))
  }

  lemma ScaleRange(r: real, span: int, offset: int)
    requires 0.0 <= r < 1.0 && span > 0
    ensures offset <= Scale(r, span, offset) < offset + span
  {
    assert 0.0 <= r * (span as real) < span as real by {
      assert r * (span as real) <= 1.0 * (span as real) - (1.0 - r) * (span as real);
    }
  }

  /** A candidate drawn from values in [0, 1) lies in the playing area. */
  lemma CandidateInArea(random: RandomStream, k: nat, width: int, height: int)
    requires 0.0 <= random(k) < 1.0 && 0.0 <= random(k + 1) < 1.0
    requires width > Margin * 2 && height > Margin * 2 + 150
    ensures var c := Candidate(random, k, width, height);
      Margin <= c.x < width - Margin && Margin + 100 <= c.y < height - Margin - 50
  {
    ScaleRange(random(k), width - Margin * 2, Margin);
    ScaleRange(random(k + 1), height - Margin * 2 - 150, Margin + 100);
  }

  /** The acceptance test, in the order the source scans the placed
      targets: at least three radii from each of them. */
  predicate Spaced(c: Point, placed: seq<Point>)
  {
    placed == [] ||
    (Spaced(c, placed[..|placed| - 1]) && DistSq(c, placed[|placed| - 1]) >= MinSpacingSq)
  }

  /** Spaced holds exactly when the candidate is three radii or more from
      every placed target. */
  lemma {:induction false} SpacedMeansFar(c: Point, placed: seq<Point>)
    ensures Spaced(c, placed) <==>
      forall j :: 0 <= j < |placed| ==> DistSq(c, placed[j]) >= MinSpacingSq
  {
    if placed != [] {
      var init := placed[..|placed| - 1];
      SpacedMeansFar(c, init);
      assert forall j :: 0 <= j < |init| ==> init[j] == placed[j];
    }
  }

  /** What the sampling of one target yields: the kept position, the number
      of candidates drawn, and the index of the next unread random draw. */
  datatype Placement = Placement(pos: Point, attempts: nat, next: nat)

  /** The do-while loop for one target, `attempts` candidates already
      rejected: draw a candidate, stop when it is spaced or when this was
      attempt 101, otherwise draw again. */
  function Place(random: RandomStream, k: nat, placed: seq<Point>, width: int, height: int,
                 attempts: nat): Placement
    requires attempts <= MaxAttempts
    decreases MaxAttempts - attempts
  {
    var c := Candidate(random, k, width, height);
    if Spaced(c, placed) || attempts + 1 > MaxAttempts then Placement(c, attempts + 1, k + 2)
    else Place(random, k + 2, placed, width, height, attempts + 1)
  }

  /** The loop stops after at most 101 attempts in all, reads two draws per
      attempt, and keeps a spaced candidate unless it ran into the cap. */
  lemma {:induction false} PlaceBounds(random: RandomStream, k: nat, placed: seq<Point>,
                                       width: int, height: int, attempts: nat)
    requires attempts <= MaxAttempts
    decreases MaxAttempts - attempts
    ensures var p := Place(random, k, placed, width, height, attempts);
      attempts < p.attempts <= MaxAttempts + 1 &&
      p.next == k + 2 * (p.attempts - attempts) &&
      (p.attempts <= MaxAttempts ==> Spaced(p.pos, placed))
  {
    var c := Candidate(random, k, width, height);
    if !(Spaced(c, placed) || attempts + 1 > MaxAttempts) {
      PlaceBounds(random, k + 2, placed, width, height, attempts + 1);
    }
  }

  /** One round of the do-while loop. */
  lemma PlaceStep(random: RandomStream, k: nat, placed: seq<Point>, width: int, height: int,
                  attempts: nat, c: Point, valid: bool)
    requires attempts <= MaxAttempts
    requires c == Candidate(random, k, width, height) && (valid <==> Spaced(c, placed))
    ensures valid || attempts + 1 > MaxAttempts ==>
      Place(random, k, placed, width, height, attempts) == Placement(c, attempts + 1, k + 2)
    ensures !valid && attempts + 1 <= MaxAttempts ==>
      Place(random, k, placed, width, height, attempts) == Place(random, k + 2, placed, width, height, attempts + 1)
  {
  }

  /** Every candidate drawn before the kept one failed the spacing test:
      the sampler never passes over a well-spaced candidate. */
  lemma {:induction false} PlaceRejectsEarlier(random: RandomStream, k: nat, placed: seq<Point>,
                                               width: int, height: int, attempts: nat)
    requires attempts <= MaxAttempts
    decreases MaxAttempts - attempts
    ensures var p := Place(random, k, placed, width, height, attempts);
      forall a :: 0 <= a < p.attempts - attempts - 1 ==>
        !Spaced(Candidate(random, k + 2 * a, width, height), placed)
  {
    var c := Candidate(random, k, width, height);
    if !(Spaced(c, placed) || attempts + 1 > MaxAttempts) {
      PlaceRejectsEarlier(random, k + 2, placed, width, height, attempts + 1);
      var p := Place(random, k, placed, width, height, attempts);
      forall a | 1 <= a < p.attempts - attempts - 1
        ensures !Spaced(Candidate(random, k + 2 * a, width, height), placed)
      {
        assert k + 2 * a == (k + 2) + 2 * (a - 1);
      }
    }
  }

  /** The position kept is always the last candidate drawn. */
  lemma {:induction false} PlaceKeepsLastCandidate(random: RandomStream, k: nat, placed: seq<Point>,
                                                   width: int, height: int, attempts: nat)
    requires attempts <= MaxAttempts
    decreases MaxAttempts - attempts
    ensures var p := Place(random, k, placed, width, height, attempts);
      p.next >= k + 2 && p.pos == Candidate(random, p.next - 2, width, height)
  {
    var c := Candidate(random, k, width, height);
    if !(Spaced(c, placed) || attempts + 1 > MaxAttempts) {
      PlaceKeepsLastCandidate(random, k + 2, placed, width, height, attempts + 1);
    }
  }

  /** The state of the generator's outer loop after `i` rounds started at
      draw `k`: the positions placed, how many candidates each took, and
      the index of the next unread draw. */
  datatype Sampling = Sampling(positions: seq<Point>, attempts: seq<nat>, next: nat)

  /** The generator's outer loop, round by round: round i samples target
      i + 1 against the positions of rounds 0 .. i - 1. */
  function Trace(random: RandomStream, k: nat, i: nat, width: int, height: int): (s: Sampling)
    decreases i
    ensures |s.positions| == i && |s.attempts| == i
  {
    if i == 0 then Sampling([], [], k)
    else
      var s := Trace(random, k, i - 1, width, height);
      var p := Place(random, s.next, s.positions, width, height, 0);
      Sampling(s.positions + [p.pos], s.attempts + [p.attempts], p.next)
  }

  /** Each position takes between 1 and 101 candidates, that is between 2
      and 202 random draws. */
  lemma {:induction false} TraceCost(random: RandomStream, k: nat, i: nat, width: int, height: int)
    decreases i
    ensures var s := Trace(random, k, i, width, height);
      (forall j :: 0 <= j < i ==> 1 <= s.attempts[j] <= MaxAttempts + 1) &&
      k + 2 * i <= s.next <= k + 202 * i
  {
    if i > 0 {
      TraceCost(random, k, i - 1, width, height);
      var t := Trace(random, k, i - 1, width, height);
      PlaceBounds(random, t.next, t.positions, width, height, 0);
      var p := Place(random, t.next, t.positions, width, height, 0);
      var s := Trace(random, k, i, width, height);
      assert s.attempts == t.attempts + [p.attempts] && s.next == p.next;
      forall j | 0 <= j < i
        ensures 1 <= s.attempts[j] <= MaxAttempts + 1
      {
        if j < i - 1 {
          assert s.attempts[j] == t.attempts[j];
        }
      }
    }
  }

  /** Later rounds keep what earlier rounds placed. */
  lemma {:induction false} TracePrefix(random: RandomStream, k: nat, i: nat, j: nat, width: int, height: int)
    requires j <= i
    decreases i
    ensures var s := Trace(random, k, i, width, height);
      var t := Trace(random, k, j, width, height);
      s.positions[..j] == t.positions && s.attempts[..j] == t.attempts
  {
    var s := Trace(random, k, i, width, height);
    var t := Trace(random, k, j, width, height);
    if j == i {
      assert s.positions[..j] == s.positions && s.attempts[..j] == s.attempts;
    } else {
      TracePrefix(random, k, i - 1, j, width, height);
      var s' := Trace(random, k, i - 1, width, height);
      assert s'.positions[..j] == t.positions && s'.attempts[..j] == t.attempts;
      var p := Place(random, s'.next, s'.positions, width, height, 0);
      assert s.positions == s'.positions + [p.pos];
      assert s.attempts == s'.attempts + [p.attempts];
      assert s.positions[..j] == s'.positions[..j];
      assert s.attempts[..j] == s'.attempts[..j];
    }
  }

  /** A position accepted before the cap is three radii from every earlier
      position. */
  lemma TraceSpacing(random: RandomStream, k: nat, n: nat, i: nat, width: int, height: int)
    requires i < n && Trace(random, k, n, width, height).attempts[i] <= MaxAttempts
    ensures var s := Trace(random, k, n, width, height);
      Spaced(s.positions[i], s.positions[..i])
  {
    TracePrefix(random, k, n, i + 1, width, height);
    TracePrefix(random, k, n, i, width, height);
    var s := Trace(random, k, n, width, height);
    var t := Trace(random, k, i + 1, width, height);
    var u := Trace(random, k, i, width, height);
    PlaceBounds(random, u.next, u.positions, width, height, 0);
    assert s.positions[..i] == s.positions[..i + 1][..i];
    assert s.positions[i] == t.positions[i] && s.attempts[i] == t.attempts[i];
  }

  /** A freshly generated target: all flags clear, and only target 1 has
      its start time stamped. */
  function NewTarget(number: int, pos: Point, now: int): Target
  {
    Target(number, pos, false, false, false, if number == 1 then Some(now) else None)
  }

  /** The targets of a level, the next unread draw, and how many candidates
      each target took. */
  datatype Generated = Generated(targets: seq<Target>, next: nat, attempts: seq<nat>)

  predicate FreshTarget(t: Target, i: int, now: int)
  {
    t.number == i + 1 && !t.completed && !t.beingTouched && !t.wrong &&
    t.startTime == (if i == 0 then Some(now) else None)
  }

  function Positions(ts: seq<Target>): (ps: seq<Point>)
    ensures |ps| == |ts| && forall i {:trigger ps[i]} :: 0 <= i < |ts| ==> ps[i] == ts[i].pos
  {
    if ts == [] then [] else [ts[0].pos] + Positions(ts[1..])
  }

  /** Targets 1..n at the given positions, in order, as the generator
      pushes them. */
  function Number(ps: seq<Point>, now: int): seq<Target>
  {
    NumberFrom(ps, 0, now)
  }

  /** Targets first + 1, first + 2, ... at the given positions. */
  function NumberFrom(ps: seq<Point>, first: nat, now: int): (ts: seq<Target>)
    ensures |ts| == |ps|
    ensures forall i {:trigger ts[i]} :: 0 <= i < |ts| ==> ts[i] == NewTarget(first + i + 1, ps[i], now)
  {
    if ps == [] then [] else [NewTarget(first + 1, ps[0], now)] + NumberFrom(ps[1..], first + 1, now)
  }

  /** The numbered targets sit at the given positions, in order, and are
      fresh: flags clear, only the first stamped. */
  lemma NumberSpec(ps: seq<Point>, now: int)
    ensures var ts := Number(ps, now);
      |ts| == |ps| && Positions(ts) == ps &&
      forall i :: 0 <= i < |ts| ==> FreshTarget(ts[i], i, now)
  {
    var ts := Number(ps, now);
    assert forall i :: 0 <= i < |ts| ==> ts[i] == NewTarget(i + 1, ps[i], now);
    assert Positions(ts) == ps;
  }

  /** Numbering one more position appends one fresh target. */
  lemma NumberAppend(ps: seq<Point>, p: Point, now: int)
    ensures Number(ps + [p], now) == Number(ps, now) + [NewTarget(|ps| + 1, p, now)]
  {
    assert forall i :: 0 <= i < |ps| ==> (ps + [p])[i] == ps[i];
  }

  /** The generator: sample n positions and number them 1..n in order. */
  function Generate(random: RandomStream, k: nat, n: nat, width: int, height: int, now: int): Generated
  {
    var s := Trace(random, k, n, width, height);
    Generated(Number(s.positions, now), s.next, s.attempts)
  }

  /** Generating a level yields n targets numbered 1..n in order, all
      flags clear and only the first stamped with `now`. */
  lemma LevelTargetsFresh(random: RandomStream, k: nat, n: nat, width: int, height: int, now: int)
    ensures var g := Generate(random, k, n, width, height, now);
      |g.targets| == n && forall i :: 0 <= i < n ==> FreshTarget(g.targets[i], i, now)
  {
    NumberSpec(Trace(random, k, n, width, height).positions, now);
  }

  /** Generating a level reads between 2 and 202 random draws per target. */
  lemma LevelDraws(random: RandomStream, k: nat, n: nat, width: int, height: int, now: int)
    ensures var g := Generate(random, k, n, width, height, now);
      |g.attempts| == n && k + 2 * n <= g.next <= k + 202 * n
  {
    TraceCost(random, k, n, width, height);
  }

  /** In a generated level, target i + 1 is three radii from every target
      before it unless its sampling hit the cap. */
  lemma LevelSpacing(random: RandomStream, k: nat, n: nat, width: int, height: int, now: int, i: nat)
    requires i < n
    requires Generate(random, k, n, width, height, now).attempts[i] <= MaxAttempts
    ensures var ps := Positions(Generate(random, k, n, width, height, now).targets);
      Spaced(ps[i], ps[..i])
  {
    TraceSpacing(random, k, n, i, width, height);
    NumberSpec(Trace(random, k, n, width, height).positions, now);
  }

  /** Past the cap the last candidate is kept however close it is: with a
      constant random stream whose candidate overlaps a placed target,
      sampling runs all 101 attempts and keeps that overlapping candidate. */
  lemma {:induction false} CapKeepsOverlap(random: RandomStream, k: nat, placed: seq<Point>,
                                           width: int, height: int, attempts: nat)
    requires attempts <= MaxAttempts
    requires forall j: nat :: random(j) == random(0)
    requires !Spaced(Candidate(random, 0, width, height), placed)
    decreases MaxAttempts - attempts
    ensures Place(random, k, placed, width, height, attempts)
         == Placement(Candidate(random, 0, width, height), MaxAttempts + 1,
                      k + 2 * (MaxAttempts + 1 - attempts))
  {
    assert Candidate(random, k, width, height) == Candidate(random, 0, width, height) by {
      assert random(k) == random(0) && random(k + 1) == random(0) && random(1) == random(0);
    }
    if attempts < MaxAttempts {
      CapKeepsOverlap(random, k + 2, placed, width, height, attempts + 1);
    }
  }
}
