/** The game controller: the page's mutable game state as the fields of one
    object, and the operations that update it in place. The operations the
    page calls (Update, ResetGame, NextLevel, CameraReady) are proved to do
    what the corresponding function of module Round says and to keep the
    class invariant Valid; the helpers they call state their own effect,
    either as a Round function or on the fields they change. */
module Game {
  import opened Settings
  import opened Layout
  import opened Touch
  import opened Feedback
  import opened Round

  class Controller {
    /** The random stream and canvas size the game reads. */
    const stage: Stage

    var phase: Phase
    var score: int
    var level: int
    var currentTarget: int
    var targetsPerLevel: int
    var targets: seq<Target>
    var particles: seq<Particle>
    var targetTimer: int
    var targetStartTime: int
    var wrongStartTime: int
    var touchedLastFrame: bool
    /** How many random numbers have been read from `stage.random`. */
    var draws: nat
    /** The values of the particles, in order. */
    ghost var sparks: seq<Spark>

    /** The state as a value. */
    ghost function Model(): Snapshot
      reads this
    {
      Snapshot(phase, score, level, currentTarget, targetsPerLevel, targets, sparks,
               targetTimer, targetStartTime, wrongStartTime, touchedLastFrame, draws)
    }

    /** `sparks` holds the particles' values, and no particle is in the
        list twice. */
    ghost predicate Tracked()
      reads this`particles, this`sparks, particles
    {
      |sparks| == |particles| &&
      (forall i :: 0 <= i < |particles| ==> particles[i].View() == sparks[i]) &&
      forall i, j :: 0 <= i < j < |particles| ==> particles[i] != particles[j]
    }

    /** The class invariant: the state is consistent and the particles are
        tracked. */
    ghost predicate Valid()
      reads this, particles
    {
      Consistent(Model()) && Tracked()
    }

    /** The page load: waiting for the camera, level 1, score 0. */
    constructor (stage: Stage, now: int)
      ensures this.stage == stage && Model() == Initial(now) && Valid()
    {
      this.stage := stage;
      phase := WaitingCamera;
      score := 0;
      level := 1;
      currentTarget := 1;
      targetsPerLevel := 2;
      targets := [];
      particles := [];
      sparks := [];
      targetTimer := TargetTimeLimit;
      targetStartTime := now;
      wrongStartTime := 0;
      touchedLastFrame := false;
      draws := 0;
    }

    /** One `Math.random()` call. */
    method Random() returns (r: real)
      modifies this`draws
      ensures r == stage.random(old(draws)) && draws == old(draws) + 1
    {
      r := stage.random(draws);
      draws := draws + 1;
    }

    /** The validity scan of generateTargets: the candidate is accepted
        when it is three radii or more from every target placed so far; the
        scan stops at the first one too close. */
    method SpacingOk(c: Point) returns (valid: bool)
      ensures valid <==> Spaced(c, Positions(targets))
    {
      ghost var ps := Positions(targets);
      SpacedMeansFar(c, ps);
      valid := true;
      var j := 0;
      while j < |targets|
        invariant 0 <= j <= |targets|
        invariant forall l :: 0 <= l < j ==> DistSq(c, ps[l]) >= MinSpacingSq
      {
        assert ps[j] == targets[j].pos;
        if DistSq(c, targets[j].pos) < MinSpacingSq {
          valid := false;
          break;
        }
        j := j + 1;
      }
    }

    /** One candidate position: two `Math.random()` calls, scaled into the
        playing area. */
    method DrawCandidate() returns (c: Point)
      modifies this`draws
      ensures c == Candidate(stage.random, old(draws), stage.width, stage.height)
      ensures draws == old(draws) + 2
    {
      var rx := Random();
      var x := Scale(rx, stage.width - Margin * 2, Margin);
      var ry := Random();
      var y := Scale(ry, stage.height - Margin * 2 - 150, Margin + 100);
      c := Point(x, y);
    }

    /** The do-while loop of generateTargets for one target: draw
        candidates until one is spaced, giving up after 101 attempts. */
    method SampleCandidate() returns (c: Point)
      modifies this`draws
      ensures Place(stage.random, old(draws), Positions(targets), stage.width, stage.height, 0).pos == c
      ensures Place(stage.random, old(draws), Positions(targets), stage.width, stage.height, 0).next == draws
    {
      ghost var ps := Positions(targets);
      ghost var k := draws;
      c := DrawCandidate();
      var valid := SpacingOk(c);
      var attempts: nat := 1;
      PlaceStep(stage.random, k, ps, stage.width, stage.height, 0, c, valid);
      while !valid && attempts <= MaxAttempts
        invariant 1 <= attempts <= MaxAttempts + 1
        invariant Place(stage.random, old(draws), ps, stage.width, stage.height, 0)
               == (if valid || attempts > MaxAttempts then Placement(c, attempts, draws)
                   else Place(stage.random, draws, ps, stage.width, stage.height, attempts))
        decreases MaxAttempts + 1 - attempts
      {
        k := draws;
        c := DrawCandidate();
        valid := SpacingOk(c);
        PlaceStep(stage.random, k, ps, stage.width, stage.height, attempts, c, valid);
        attempts := attempts + 1;
      }
    }

    /** The loop of generateTargets: place targetsPerLevel targets, each
        sampled against those before it and numbered in order. */
    method PlaceTargets(now: int)
      requires targetsPerLevel == TargetsFor(level)
      modifies this`targets, this`draws
      ensures var g := Generate(stage.random, old(draws), LayoutSize(level), stage.width, stage.height, now);
        targets == g.targets && draws == g.next
    {
      ghost var k0 := draws;
      ghost var m := LayoutSize(level);
      targets := [];
      var n := targetsPerLevel;
      var i := 0;
      while i < n
        modifies this`targets, this`draws
        invariant 0 <= i <= m
        invariant var s := Trace(stage.random, k0, i, stage.width, stage.height);
          targets == Number(s.positions, now) && draws == s.next
      {
        ghost var s := Trace(stage.random, k0, i, stage.width, stage.height);
        NumberSpec(s.positions, now);
        var c := SampleCandidate();
        ghost var t := Trace(stage.random, k0, i + 1, stage.width, stage.height);
        assert t.positions == s.positions + [c] && t.next == draws;
        NumberAppend(s.positions, c, now);
        targets := targets + [NewTarget(i + 1, c, now)];
        i := i + 1;
      }
    }

    /** generateTargets: lay out the level's targets by rejection sampling,
        then make target 1 current with its countdown starting now. */
    method GenerateTargets(now: int)
      modifies this`targets, this`targetsPerLevel, this`draws, this`currentTarget, this`targetStartTime
      ensures Model() == Regenerate(stage, old(Model()), now)
    {
      targetsPerLevel := TargetsFor(level);
      PlaceTargets(now);
      currentTarget := 1;
      targetStartTime := now;
    }

    /** checkTouch: scan the targets in order; an incomplete target within
        reach is highlighted and its number returned at once, every
        incomplete target passed over before it loses its highlight. */
    method CheckTouch(f: Point) returns (hit: Option<int>)
      modifies this`targets
      ensures hit == FirstTouched(old(targets), f)
      ensures targets == Highlight(old(targets), f)
    {
      ghost var ts := targets;
      HighlightSpec(ts, f);
      var j := 0;
      while j < |targets|
        invariant 0 <= j <= |ts| && |targets| == |ts|
        invariant NoTouchBefore(ts, f, j)
        invariant forall m :: 0 <= m < j ==> targets[m] == Highlight(ts, f)[m]
        invariant forall m :: j <= m < |ts| ==> targets[m] == ts[m]
      {
        var t := targets[j];
        if !t.completed {
          if DistSq(f, t.pos) < TouchThresholdSq {
            targets := targets[j := t.(beingTouched := true)];
            FirstTouchedAt(ts, f, j);
            assert forall m :: j < m < |ts| ==> !NoTouchBefore(ts, f, m);
            return Some(t.number);
          } else {
            targets := targets[j := t.(beingTouched := false)];
          }
        }
        j := j + 1;
      }
      FirstTouchedNone(ts, f);
      hit := None;
    }

    /** completeTarget: find the current target, mark it done, launch a
        particle from the touch point, count the point and move on to the
        next target, starting its countdown. */
    method CompleteTarget(f: Point, now: int)
      requires Numbered(targets) && 1 <= currentTarget <= targetsPerLevel <= |targets|
      modifies this`targets, this`particles, this`sparks, this`score, this`currentTarget,
               this`targetStartTime
      requires Tracked()
      ensures Model() == Complete(old(Model()), f, now)
      ensures Tracked()
    {
      var j := 0;
      while targets[j].number != currentTarget
        modifies {}
        invariant 0 <= j < currentTarget
        decreases currentTarget - j
      {
        j := j + 1;
      }
      targets := targets[j := targets[j].(completed := true, beingTouched := false)];
      LaunchParticle(f);
      AdvanceTarget(now);
    }

    /** The end of completeTarget: count the point and make the next target,
        if there is one, current with its countdown starting now. */
    method AdvanceTarget(now: int)
      requires 1 <= currentTarget <= targetsPerLevel <= |targets|
      modifies this`targets, this`score, this`currentTarget, this`targetStartTime
      ensures score == old(score) + 1 && currentTarget == old(currentTarget) + 1
      ensures currentTarget <= targetsPerLevel ==>
        targetStartTime == now &&
        targets == old(targets)[currentTarget - 1 := old(targets)[currentTarget - 1].(startTime := Some(now))]
      ensures currentTarget > targetsPerLevel ==>
        targetStartTime == old(targetStartTime) && targets == old(targets)
    {
      score := score + 1;
      currentTarget := currentTarget + 1;
      if currentTarget <= targetsPerLevel {
        targetStartTime := now;
        targets := targets[currentTarget - 1 := targets[currentTarget - 1].(startTime := Some(now))];
      }
    }

    /** The particle of a correct touch: it starts at the touch point and
        flies to the progress display. */
    method LaunchParticle(f: Point)
      requires Tracked()
      modifies this`particles, this`sparks
      ensures sparks == old(sparks) + [Spark(f, ProgressAnchor, 0)]
      ensures Tracked()
    {
      var p := new Particle(f, ProgressAnchor);
      assert p !in particles;
      particles := particles + [p];
      sparks := sparks + [p.View()];
    }

    /** wrongTouch: enter the wrong phase now and flag the touched target. */
    method WrongTouch(n: int, now: int)
      modifies this`phase, this`wrongStartTime, this`targets
      ensures Model() == Round.WrongTouch(old(Model()), n, now)
    {
      phase := Wrong;
      wrongStartTime := now;
      var ts := targets;
      var j := 0;
      while j < |ts|
        modifies {}
        invariant 0 <= j <= |ts| == |targets|
        invariant forall m :: 0 <= m < |ts| ==> ts[m] == if m < j then FlagWrong(targets, n)[m] else targets[m]
      {
        if ts[j].number == n {
          ts := ts[j := ts[j].(wrong := true)];
        }
        j := j + 1;
      }
      assert ts == FlagWrong(targets, n);
      targets := ts;
    }

    /** The particle filter at the start of update: advance every particle
        and keep, in order, those that are not done. */
    method UpdateParticles()
      requires Tracked()
      modifies this`particles, this`sparks, particles
      ensures Model() == old(Model()).(sparks := Survivors(old(sparks)))
      ensures Tracked()
    {
      var ps := particles;
      ghost var ss := sparks;
      var kept: seq<Particle> := [];
      ghost var survivors: seq<Spark> := [];
      var j := 0;
      while j < |ps|
        modifies ps
        invariant 0 <= j <= |ps| == |ss|
        invariant forall m :: j <= m < |ps| ==> ps[m].View() == ss[m]
        invariant survivors == Survivors(ss[..j])
        invariant |kept| == |survivors| && forall a :: 0 <= a < |kept| ==> kept[a].View() == survivors[a]
        invariant forall a, b :: 0 <= a < b < |kept| ==> kept[a] != kept[b]
        invariant forall a, m :: 0 <= a < |kept| && j <= m < |ps| ==> kept[a] != ps[m]
      {
        var p := ps[j];
        var done := p.Update();
        assert ss[..j + 1][..j] == ss[..j];
        if !done {
          kept := kept + [p];
          survivors := survivors + [Advance(ss[j])];
        }
        j := j + 1;
      }
      assert ss[..j] == ss;
      particles := kept;
      sparks := survivors;
    }

    /** What update does with the result of checkTouch: on a new touch,
        complete the current target or take a wrong touch, and remember
        whether the fingertip was touching. */
    method Respond(hit: Option<int>, f: Point, now: int)
      requires Consistent(Model()) && Tracked() && phase == Playing
      requires hit.Some? ==> 1 <= hit.value <= |targets|
      modifies this`targets, this`particles, this`sparks, this`score, this`currentTarget,
               this`targetStartTime, this`phase, this`wrongStartTime, this`touchedLastFrame
      ensures Model() == Round.Respond(old(Model()), hit, f, now)
      ensures Tracked()
    {
      if hit.Some? && !touchedLastFrame {
        if hit.value == currentTarget {
          CompleteTarget(f, now);
        } else {
          WrongTouch(hit.value, now);
        }
        touchedLastFrame := true;
      } else if hit.None? {
        touchedLastFrame := false;
      }
    }

    /** The touch handling of update while playing: resolve the touch,
        then respond to it; without a fingertip the edge flag is cleared. */
    method HandleTouch(finger: Option<Point>, now: int)
      requires Consistent(Model()) && Tracked() && phase == Playing
      modifies this`targets, this`particles, this`sparks, this`score, this`currentTarget,
               this`targetStartTime, this`phase, this`wrongStartTime, this`touchedLastFrame
      ensures Model() == TouchStep(old(Model()), finger, now)
      ensures Tracked()
    {
      if finger.Some? {
        var f := finger.value;
        ghost var before := Model();
        FirstTouchedNumbered(targets, f);
        HighlightConsistent(before, f);
        var hit := CheckTouch(f);
        assert Model() == before.(targets := Highlight(before.targets, f));
        Respond(hit, f, now);
      } else {
        touchedLastFrame := false;
      }
    }

    /** update: one frame of the game loop, given the fingertip the hand
        tracker last reported (if any) and the clock. */
    method Update(finger: Option<Point>, now: int)
      requires Valid()
      modifies this, particles
      ensures Model() == Frame(stage, old(Model()), finger, now)
      ensures Valid()
    {
      ghost var before := Model();
      FilterConsistent(before);
      UpdateParticles();
      ghost var filtered := Model();
      if phase == Playing {
        HandleTouch(finger, now);
        EndPlayingFrame(now);
        assert Model() == EndOfFrame(TouchStep(filtered, finger, now), now);
      } else if phase == Wrong {
        if now - wrongStartTime > WrongModalDuration {
          ResumePlay(now);
        }
      }
      assert Model() == Frame(stage, before, finger, now);
      FrameConsistent(stage, before, finger, now);
    }

    /** The checks at the end of a playing frame: level complete once every
        target is done and no particle is left, then the countdown of the
        current target and game over when it has run out. */
    method EndPlayingFrame(now: int)
      requires Tracked()
      modifies this`phase, this`targetTimer
      ensures Model() == EndOfFrame(old(Model()), now)
      ensures Tracked()
    {
      if currentTarget > targetsPerLevel && |particles| == 0 {
        phase := LevelComplete;
      }
      if currentTarget <= targetsPerLevel {
        targetTimer := Countdown(now - targetStartTime);
        if targetTimer <= 0 {
          phase := GameOver;
        }
      }
    }

    /** The end of the wrong phase: play resumes on a fresh layout. */
    method ResumePlay(now: int)
      requires Tracked()
      modifies this`phase, this`targets, this`targetsPerLevel, this`draws, this`currentTarget,
               this`targetStartTime
      ensures Model() == Regenerate(stage, old(Model()).(phase := Playing), now)
      ensures Tracked()
    {
      phase := Playing;
      GenerateTargets(now);
    }

    /** resetGame: level 1, score 0, no particles, a fresh layout. */
    method ResetGame(now: int)
      modifies this
      ensures Model() == Reset(stage, old(Model()), now)
      ensures Valid()
    {
      ClearProgress();
      RegenerateConsistent(stage, Model(), now);
      GenerateTargets(now);
    }

    /** The field updates of resetGame before the new layout. */
    method ClearProgress()
      modifies this`score, this`level, this`currentTarget, this`targetsPerLevel, this`phase,
               this`particles, this`sparks
      ensures score == 0 && level == 1 && currentTarget == 1 && targetsPerLevel == 2 && phase == Playing
      ensures sparks == [] && particles == []
    {
      score := 0;
      level := 1;
      currentTarget := 1;
      targetsPerLevel := 2;
      phase := Playing;
      particles := [];
      sparks := [];
    }

    /** nextLevel: one level up, no particles, a fresh layout, whatever the
        phase. */
    method NextLevel(now: int)
      requires Valid()
      modifies this
      ensures Model() == Round.NextLevel(stage, old(Model()), now)
      ensures Valid()
    {
      RaiseLevel();
      RegenerateConsistent(stage, Model(), now);
      GenerateTargets(now);
    }

    /** The field updates of nextLevel before the new layout. */
    method RaiseLevel()
      modifies this`level, this`currentTarget, this`targetsPerLevel, this`phase, this`particles, this`sparks
      ensures level == old(level) + 1 && currentTarget == 1 && targetsPerLevel == TargetsFor(level)
      ensures phase == Playing && sparks == [] && particles == []
    {
      level := level + 1;
      currentTarget := 1;
      targetsPerLevel := TargetsFor(level);
      phase := Playing;
      particles := [];
      sparks := [];
    }

    /** The end of camera start-up: play begins on a fresh layout. */
    method CameraReady(now: int)
      requires Valid()
      modifies this`phase, this`targets, this`targetsPerLevel, this`draws, this`currentTarget,
               this`targetStartTime
      ensures Model() == Round.CameraReady(stage, old(Model()), now)
      ensures Valid()
    {
      phase := Playing;
      RegenerateConsistent(stage, Model(), now);
      GenerateTargets(now);
    }
  }
}
