/** The round controller as a specification: the whole game state as one
    value, and each operation of the game (a frame update, a correct touch,
    a wrong touch, layout generation, reset, next level) as a function from
    the state before to the state after. The controller class in module
    Game is proved to follow these functions. */
module Round {
  import opened Settings
  import opened Layout
  import opened Touch
  import opened Feedback

  datatype Phase = WaitingCamera | Playing | LevelComplete | GameOver | Wrong

  /** What the game reads from its page: the `Math.random()` stream and
      the canvas size. */
  datatype Stage = Stage(random: RandomStream, width: int, height: int)

  /** The module-level state of the game. Times are in milliseconds;
      `targetTimer` is the countdown the page displays, `draws` counts the
      random numbers read so far. */
  datatype Snapshot = Snapshot(
    phase: Phase,
    score: int,
    level: int,
    currentTarget: int,
    targetsPerLevel: int,
    targets: seq<Target>,
    sparks: seq<Spark>,
    targetTimer: int,
    targetStartTime: int,
    wrongStartTime: int,
    touchedLastFrame: bool,
    draws: nat)

  /** The state when the page loads, before the camera is ready. The
      wrong-touch start time is still null, which subtraction reads as 0. */
  function Initial(now: int): Snapshot
  {
    Snapshot(WaitingCamera, 0, 1, 1, 2, [], [], TargetTimeLimit, now, 0, false, 0)
  }

  /** The invariant every operation keeps. */
  predicate Consistent(s: Snapshot)
  {
    s.level >= 1 && s.targetsPerLevel == TargetsFor(s.level) && s.score >= 0 &&
    1 <= s.currentTarget <= s.targetsPerLevel + 1 &&
    (if s.phase == WaitingCamera then s.targets == [] && s.currentTarget == 1
     else |s.targets| == s.targetsPerLevel) &&
    Numbered(s.targets) &&
    (forall i :: 0 <= i < |s.targets| ==> (s.targets[i].completed <==> i + 1 < s.currentTarget)) &&
    (forall i :: 0 <= i < |s.targets| ==> (s.targets[i].startTime.Some? <==> i < s.currentTarget)) &&
    (s.currentTarget <= |s.targets| ==>
       s.targets[s.currentTarget - 1].startTime == Some(s.targetStartTime)) &&
    (s.phase == Playing ==> forall i :: 0 <= i < |s.targets| ==> !s.targets[i].wrong) &&
    (forall i :: 0 <= i < |s.sparks| ==> s.sparks[i].progress < ParticleSteps)
  }

  lemma InitialConsistent(now: int)
    ensures Consistent(Initial(now))
  {
  }

  /** generateTargets: a fresh layout of TargetsFor(level) targets, with
      target 1 current and its countdown starting now. */
  function Regenerate(st: Stage, s: Snapshot, now: int): Snapshot
  {
    var g := Generate(st.random, s.draws, LayoutSize(s.level), st.width, st.height, now);
    s.(targetsPerLevel := TargetsFor(s.level), targets := g.targets, draws := g.next, currentTarget := 1,
       targetStartTime := now)
  }

  /** completeTarget: the current target is marked done, a particle starts
      at the touch point, score and current target go up by one, and the
      next target, if any, starts its countdown now. */
  function Complete(s: Snapshot, f: Point, now: int): Snapshot
    requires 1 <= s.currentTarget <= s.targetsPerLevel <= |s.targets|
  {
    var i := s.currentTarget - 1;
    var ts := s.targets[i := s.targets[i].(completed := true, beingTouched := false)];
    var ct := s.currentTarget + 1;
    var s' := s.(targets := ts, sparks := s.sparks + [Spark(f, ProgressAnchor, 0)],
                 score := s.score + 1, currentTarget := ct);
    if ct <= s.targetsPerLevel then
      s'.(targetStartTime := now, targets := ts[ct - 1 := ts[ct - 1].(startTime := Some(now))])
    else s'
  }

  /** Every target carrying number n gets the wrong flag. */
  function FlagWrong(ts: seq<Target>, n: int): (r: seq<Target>)
    ensures |r| == |ts|
    ensures forall i {:trigger r[i]} :: 0 <= i < |ts| ==> r[i] == if ts[i].number == n then ts[i].(wrong := true) else ts[i]
  {
    if ts == [] then []
    else [if ts[0].number == n then ts[0].(wrong := true) else ts[0]] + FlagWrong(ts[1..], n)
  }

  /** wrongTouch: the phase becomes Wrong, its dwell starts now, and the
      touched target is flagged. */
  function WrongTouch(s: Snapshot, n: int, now: int): Snapshot
  {
    s.(phase := Wrong, wrongStartTime := now, targets := FlagWrong(s.targets, n))
  }

  /** What a playing frame does with the resolved touch `hit`: act on it
      only if the previous frame was not touching (complete the current
      target, or a wrong touch for any other), and keep the edge flag. */
  function Respond(s: Snapshot, hit: Option<int>, f: Point, now: int): Snapshot
    requires Consistent(s) && s.phase == Playing
    requires hit.Some? ==> 1 <= hit.value <= |s.targets|
  {
    if hit.Some? && !s.touchedLastFrame then
      if hit.value == s.currentTarget then Complete(s, f, now).(touchedLastFrame := true)
      else WrongTouch(s, hit.value, now).(touchedLastFrame := true)
    else if hit.None? then s.(touchedLastFrame := false)
    else s
  }

  /** The touch part of a playing frame: resolve the touch, highlighting
      as the scan goes, then respond to it. */
  function TouchStep(s: Snapshot, finger: Option<Point>, now: int): Snapshot
    requires Consistent(s) && s.phase == Playing
  {
    match finger
    case None => s.(touchedLastFrame := false)
    case Some(f) =>
      var hit := FirstTouched(s.targets, f);
      FirstTouchedNumbered(s.targets, f);
      HighlightConsistent(s, f);
      Respond(s.(targets := Highlight(s.targets, f)), hit, f, now)
  }

  /** The countdown shown for the current target: what is left of its ten
      seconds, never below zero. */
  function Countdown(elapsed: int): (ms: int)
    ensures ms >= 0
    ensures ms == 0 <==> elapsed >= TargetTimeLimit
    ensures ms > 0 ==> ms + elapsed == TargetTimeLimit
  {
    if TargetTimeLimit - elapsed > 0 then TargetTimeLimit - elapsed else 0
  }

  /** The end of a playing frame: the level completes once every target is
      done and no particle is left; while a target is current its
      countdown is recomputed and the game is over when it reaches 0. */
  function EndOfFrame(s: Snapshot, now: int): Snapshot
  {
    var s1 := if s.currentTarget > s.targetsPerLevel && |s.sparks| == 0 then s.(phase := LevelComplete) else s;
    if s1.currentTarget <= s1.targetsPerLevel then
      var timer := Countdown(now - s1.targetStartTime);
      s1.(targetTimer := timer, phase := if timer <= 0 then GameOver else s1.phase)
    else s1
  }

  /** update: one frame, given this frame's fingertip (if a hand is seen). */
  function Frame(st: Stage, s: Snapshot, finger: Option<Point>, now: int): Snapshot
    requires Consistent(s)
  {
    SurvivorsBounded(s.sparks);
    var s0 := s.(sparks := Survivors(s.sparks));
    match s0.phase
    case Playing => EndOfFrame(TouchStep(s0, finger, now), now)
    case Wrong =>
      if now - s0.wrongStartTime > WrongModalDuration then Regenerate(st, s0.(phase := Playing), now)
      else s0
    case _ => s0
  }

  /** resetGame: back to level 1 with score 0, no particles, a fresh layout. */
  function Reset(st: Stage, s: Snapshot, now: int): Snapshot
  {
    Regenerate(st, s.(score := 0, level := 1, currentTarget := 1, targetsPerLevel := 2,
                      phase := Playing, sparks := []), now)
  }

  /** nextLevel: one level up, no particles, a fresh layout. It has no
      guard on the phase. */
  function NextLevel(st: Stage, s: Snapshot, now: int): Snapshot
  {
    Regenerate(st, s.(level := s.level + 1, currentTarget := 1,
                      targetsPerLevel := TargetsFor(s.level + 1), phase := Playing, sparks := []), now)
  }

  /** The camera became ready: play starts on a fresh layout. */
  function CameraReady(st: Stage, s: Snapshot, now: int): Snapshot
  {
    Regenerate(st, s.(phase := Playing), now)
  }

  // ---------------------------------------------------------------------
  // The invariant is kept

  lemma HighlightConsistent(s: Snapshot, f: Point)
    requires Consistent(s)
    ensures Consistent(s.(targets := Highlight(s.targets, f)))
  {
    HighlightKeepsLayout(s.targets, f);
  }

  /** A fresh layout for a playing state of level >= 1 is consistent: it
      has TargetsFor(level) targets numbered 1..n, all incomplete and not
      wrong, target 1 current and stamped now. */
  lemma RegenerateConsistent(st: Stage, s: Snapshot, now: int)
    requires s.phase == Playing && s.level >= 1 && s.score >= 0
    requires forall i :: 0 <= i < |s.sparks| ==> s.sparks[i].progress < ParticleSteps
    ensures var r := Regenerate(st, s, now);
      Consistent(r) && r.currentTarget == 1 && r.targetStartTime == now &&
      r.targetsPerLevel == TargetsFor(s.level) && |r.targets| == r.targetsPerLevel &&
      forall i :: 0 <= i < |r.targets| ==> FreshTarget(r.targets[i], i, now)
  {
    TargetsForRange(s.level);
    var n := TargetsFor(s.level);
    LevelTargetsFresh(st.random, s.draws, n, st.width, st.height, now);
  }

  lemma CompleteConsistent(s: Snapshot, f: Point, now: int)
    requires Consistent(s) && s.phase != WaitingCamera && s.currentTarget <= s.targetsPerLevel
    ensures Consistent(Complete(s, f, now))
  {
  }

  lemma WrongTouchConsistent(s: Snapshot, n: int, now: int)
    requires Consistent(s) && s.phase != WaitingCamera
    ensures Consistent(WrongTouch(s, n, now))
  {
  }

  lemma RespondConsistent(s: Snapshot, hit: Option<int>, f: Point, now: int)
    requires Consistent(s) && s.phase == Playing
    requires hit.Some? ==> 1 <= hit.value <= |s.targets|
    ensures Consistent(Respond(s, hit, f, now))
  {
    if hit.Some? && !s.touchedLastFrame {
      if hit.value == s.currentTarget {
        CompleteConsistent(s, f, now);
        FlagConsistent(Complete(s, f, now), true);
      } else {
        WrongTouchConsistent(s, hit.value, now);
        FlagConsistent(WrongTouch(s, hit.value, now), true);
      }
    } else {
      FlagConsistent(s, hit.Some?);
    }
  }

  /** The edge flag plays no part in the invariant. */
  lemma FlagConsistent(s: Snapshot, touched: bool)
    requires Consistent(s)
    ensures Consistent(s.(touchedLastFrame := touched))
  {
  }

  lemma TouchStepConsistent(s: Snapshot, finger: Option<Point>, now: int)
    requires Consistent(s) && s.phase == Playing
    ensures Consistent(TouchStep(s, finger, now))
  {
    if finger.Some? {
      var f := finger.value;
      HighlightConsistent(s, f);
      FirstTouchedNumbered(s.targets, f);
      RespondConsistent(s.(targets := Highlight(s.targets, f)), FirstTouched(s.targets, f), f, now);
    }
  }

  lemma EndOfFrameConsistent(s: Snapshot, now: int)
    requires Consistent(s) && s.phase != WaitingCamera
    ensures Consistent(EndOfFrame(s, now))
  {
  }

  lemma FilterConsistent(s: Snapshot)
    requires Consistent(s)
    ensures Consistent(s.(sparks := Survivors(s.sparks)))
  {
    SurvivorsBounded(s.sparks);
  }

  lemma FrameConsistent(st: Stage, s: Snapshot, finger: Option<Point>, now: int)
    requires Consistent(s)
    ensures Consistent(Frame(st, s, finger, now))
  {
    var s0 := s.(sparks := Survivors(s.sparks));
    FilterConsistent(s);
    if s0.phase == Playing {
      TouchStepConsistent(s0, finger, now);
      EndOfFrameConsistent(TouchStep(s0, finger, now), now);
    } else if s0.phase == Wrong && now - s0.wrongStartTime > WrongModalDuration {
      RegenerateConsistent(st, s0.(phase := Playing), now);
    }
  }

  lemma ResetConsistent(st: Stage, s: Snapshot, now: int)
    ensures Consistent(Reset(st, s, now))
  {
    RegenerateConsistent(st, s.(score := 0, level := 1, currentTarget := 1, targetsPerLevel := 2,
                                phase := Playing, sparks := []), now);
  }

  lemma NextLevelConsistent(st: Stage, s: Snapshot, now: int)
    requires Consistent(s)
    ensures Consistent(NextLevel(st, s, now))
  {
    RegenerateConsistent(st, s.(level := s.level + 1, currentTarget := 1,
                                targetsPerLevel := TargetsFor(s.level + 1), phase := Playing, sparks := []), now);
  }

  lemma CameraReadyConsistent(st: Stage, s: Snapshot, now: int)
    requires Consistent(s)
    ensures Consistent(CameraReady(st, s, now))
  {
    RegenerateConsistent(st, s.(phase := Playing), now);
  }

  // ---------------------------------------------------------------------
  // What a frame does

  /** A playing frame whose fingertip newly touches the current target. */
  predicate CorrectEdge(s: Snapshot, finger: Option<Point>)
  {
    s.phase == Playing && finger.Some? && !s.touchedLastFrame &&
    FirstTouched(s.targets, finger.value) == Some(s.currentTarget)
  }

  /** A playing frame whose fingertip newly touches another target. */
  predicate WrongEdge(s: Snapshot, finger: Option<Point>)
  {
    s.phase == Playing && finger.Some? && !s.touchedLastFrame &&
    FirstTouched(s.targets, finger.value).Some? &&
    FirstTouched(s.targets, finger.value) != Some(s.currentTarget)
  }

  /** The touch part of a frame: a correct edge scores one and advances
      the current target, a wrong edge enters the wrong phase, and after it
      the edge flag says whether the fingertip is over an incomplete target. */
  lemma TouchStepEffect(s: Snapshot, finger: Option<Point>, now: int)
    requires Consistent(s) && s.phase == Playing
    ensures var r := TouchStep(s, finger, now);
      var correct := CorrectEdge(s, finger);
      r.level == s.level && r.targetsPerLevel == s.targetsPerLevel && r.draws == s.draws &&
      r.targetTimer == s.targetTimer &&
      r.score == (if correct then s.score + 1 else s.score) &&
      r.currentTarget == (if correct then s.currentTarget + 1 else s.currentTarget) &&
      r.sparks == (if correct then s.sparks + [Spark(finger.value, ProgressAnchor, 0)] else s.sparks) &&
      r.targetStartTime == (if correct && r.currentTarget <= r.targetsPerLevel then now else s.targetStartTime) &&
      r.phase == (if WrongEdge(s, finger) then Wrong else Playing) &&
      r.wrongStartTime == (if WrongEdge(s, finger) then now else s.wrongStartTime) &&
      (r.touchedLastFrame <==> finger.Some? && FirstTouched(s.targets, finger.value).Some?) &&
      TargetsAfterTouch(s.targets, r.targets, s.currentTarget, CorrectEdge(s, finger),
                        if WrongEdge(s, finger) then FirstTouched(s.targets, finger.value) else None)
  {
    if finger.Some? && FirstTouched(s.targets, finger.value).Some? {
      FirstTouchedNumbered(s.targets, finger.value);
    }
    TouchStepKeepsTargets(s, finger, now);
  }

  /** What the touch part of a frame does to the targets: positions and
      numbers stay; a correct touch completes the current target and clears
      its highlight; a wrong touch on target n flags target n; no other
      completion or wrong flag changes. */
  predicate TargetsAfterTouch(before: seq<Target>, after: seq<Target>, current: int,
                              correct: bool, wrongHit: Option<int>)
  {
    |after| == |before| &&
    (forall i :: 0 <= i < |after| ==>
       after[i].pos == before[i].pos && after[i].number == before[i].number &&
       (after[i].completed <==> before[i].completed || (correct && i + 1 == current)) &&
       (after[i].wrong <==> before[i].wrong || (wrongHit.Some? && i + 1 == wrongHit.value))) &&
    (correct && 1 <= current <= |after| ==> !after[current - 1].beingTouched)
  }

  /** The scan alone changes no position, number, completion or wrong flag. */
  predicate SameLayout(before: seq<Target>, after: seq<Target>)
  {
    |after| == |before| &&
    forall i :: 0 <= i < |after| ==>
      after[i].pos == before[i].pos && after[i].number == before[i].number &&
      after[i].completed == before[i].completed && after[i].wrong == before[i].wrong
  }

  lemma TouchStepKeepsTargets(s: Snapshot, finger: Option<Point>, now: int)
    requires Consistent(s) && s.phase == Playing
    ensures TargetsAfterTouch(s.targets, TouchStep(s, finger, now).targets, s.currentTarget,
                              CorrectEdge(s, finger),
                              if WrongEdge(s, finger) then FirstTouched(s.targets, finger.value) else None)
  {
    if finger.Some? {
      var f := finger.value;
      var hit := FirstTouched(s.targets, f);
      FirstTouchedNumbered(s.targets, f);
      HighlightKeepsLayout(s.targets, f);
      HighlightConsistent(s, f);
      var s1 := s.(targets := Highlight(s.targets, f));
      assert SameLayout(s.targets, s1.targets);
      RespondTargets(s.targets, s1, hit, f, now);
      assert TouchStep(s, finger, now) == Respond(s1, hit, f, now);
    }
  }

  lemma RespondTargets(before: seq<Target>, s: Snapshot, hit: Option<int>, f: Point, now: int)
    requires Consistent(s) && s.phase == Playing
    requires hit.Some? ==> 1 <= hit.value <= |s.targets|
    requires SameLayout(before, s.targets) && Numbered(before)
    ensures TargetsAfterTouch(before, Respond(s, hit, f, now).targets, s.currentTarget,
                              hit.Some? && !s.touchedLastFrame && hit.value == s.currentTarget,
                              if hit.Some? && !s.touchedLastFrame && hit.value != s.currentTarget then hit else None)
  {
    if hit.Some? && !s.touchedLastFrame {
      if hit.value == s.currentTarget {
        CorrectTouchTargets(before, s, f, now);
      } else {
        WrongTouchTargets(before, s.targets, hit.value, s.currentTarget);
      }
    }
  }

  lemma CorrectTouchTargets(before: seq<Target>, s: Snapshot, f: Point, now: int)
    requires SameLayout(before, s.targets) && 1 <= s.currentTarget <= s.targetsPerLevel <= |s.targets|
    ensures TargetsAfterTouch(before, Complete(s, f, now).targets, s.currentTarget, true, None)
  {
    CompleteTargets(s, f, now);
  }

  lemma WrongTouchTargets(before: seq<Target>, lit: seq<Target>, n: int, current: int)
    requires SameLayout(before, lit) && Numbered(before)
    ensures TargetsAfterTouch(before, FlagWrong(lit, n), current, false, Some(n))
  {
  }

  /** A correct touch completes the current target and clears its
      highlight; numbers, positions and wrong flags stay. */
  lemma CompleteTargets(s: Snapshot, f: Point, now: int)
    requires 1 <= s.currentTarget <= s.targetsPerLevel <= |s.targets|
    ensures var ts := Complete(s, f, now).targets;
      |ts| == |s.targets| && !ts[s.currentTarget - 1].beingTouched &&
      forall i :: 0 <= i < |ts| ==>
        ts[i].pos == s.targets[i].pos && ts[i].number == s.targets[i].number &&
        ts[i].wrong == s.targets[i].wrong &&
        (ts[i].completed <==> s.targets[i].completed || i + 1 == s.currentTarget)
  {
  }

  /** The end of a frame changes only the phase and the displayed timer. */
  lemma EndOfFrameEffect(s: Snapshot, now: int)
    requires s.phase == Playing || s.phase == Wrong
    ensures var r := EndOfFrame(s, now);
      r == s.(phase := r.phase, targetTimer := r.targetTimer) &&
      (r.phase == LevelComplete <==> s.currentTarget > s.targetsPerLevel && s.sparks == []) &&
      (r.phase == GameOver <==>
         s.currentTarget <= s.targetsPerLevel && now - s.targetStartTime >= TargetTimeLimit) &&
      (r.phase != LevelComplete && r.phase != GameOver ==> r.phase == s.phase) &&
      (s.currentTarget <= s.targetsPerLevel ==> r.targetTimer == Countdown(now - s.targetStartTime)) &&
      (s.currentTarget > s.targetsPerLevel ==> r.targetTimer == s.targetTimer)
  {
  }

  /** The score rises by one in a frame exactly when the fingertip newly
      touches the current target during play, and then the current target
      advances with it; otherwise the score stays. */
  lemma FrameScore(st: Stage, s: Snapshot, finger: Option<Point>, now: int)
    requires Consistent(s)
    ensures var r := Frame(st, s, finger, now);
      (r.score == s.score + 1 <==> CorrectEdge(s, finger)) &&
      (r.score == s.score || r.score == s.score + 1) &&
      (CorrectEdge(s, finger) ==>
         r.currentTarget == s.currentTarget + 1 && r.level == s.level &&
         r.phase != LevelComplete && |r.sparks| >= 1)
  {
    var s0 := s.(sparks := Survivors(s.sparks));
    FilterConsistent(s);
    if s.phase == Playing {
      TouchStepEffect(s0, finger, now);
      EndOfFrameEffect(TouchStep(s0, finger, now), now);
    }
  }

  /** Holding the fingertip on a target acts once: while the previous
      frame was touching, a frame neither scores nor enters the wrong
      phase, and the flag stays set exactly while the fingertip is over an
      incomplete target. */
  lemma SustainedContact(st: Stage, s: Snapshot, finger: Option<Point>, now: int)
    requires Consistent(s) && s.phase == Playing && s.touchedLastFrame
    ensures var r := Frame(st, s, finger, now);
      r.score == s.score && r.currentTarget == s.currentTarget && r.phase != Wrong &&
      r.targetStartTime == s.targetStartTime &&
      (r.touchedLastFrame <==> finger.Some? && FirstTouched(s.targets, finger.value).Some?)
  {
    var s0 := s.(sparks := Survivors(s.sparks));
    FilterConsistent(s);
    TouchStepEffect(s0, finger, now);
    EndOfFrameEffect(TouchStep(s0, finger, now), now);
  }

  /** A new touch on a target other than the current one flags it, starts
      the wrong phase now and keeps score and progress; the countdown still
      runs in that frame, so the game can also end in it. */
  lemma WrongTouchFrame(st: Stage, s: Snapshot, finger: Option<Point>, now: int)
    requires Consistent(s) && WrongEdge(s, finger)
    ensures var n := FirstTouched(s.targets, finger.value).value;
      var r := Frame(st, s, finger, now);
      s.currentTarget < n <= |s.targets| && |r.targets| == |s.targets| && r.targets[n - 1].wrong &&
      r.score == s.score && r.currentTarget == s.currentTarget && r.wrongStartTime == now &&
      r.touchedLastFrame &&
      (r.phase == GameOver <==> now - s.targetStartTime >= TargetTimeLimit) &&
      (r.phase == Wrong <==> now - s.targetStartTime < TargetTimeLimit)
  {
    var f := finger.value;
    var s0 := s.(sparks := Survivors(s.sparks));
    FilterConsistent(s);
    FirstTouchedNumbered(s.targets, f);
    var n := FirstTouched(s.targets, f).value;
    var lit := Highlight(s.targets, f);
    HighlightConsistent(s0, f);
    var s1 := WrongTouch(s0.(targets := lit), n, now).(touchedLastFrame := true);
    assert TouchStep(s0, finger, now) == s1;
    HighlightKeepsLayout(s.targets, f);
    assert lit[n - 1].number == n;
    assert s1.targets[n - 1].wrong;
    EndOfFrameEffect(s1, now);
    assert Frame(st, s, finger, now) == EndOfFrame(s1, now);
  }

  /** The wrong phase ends once more than the dwell time has passed since
      it began (and not at exactly the dwell time): play resumes on a fresh
      layout with score and level kept. Before then only the particles move. */
  lemma WrongDwell(st: Stage, s: Snapshot, finger: Option<Point>, now: int)
    requires Consistent(s) && s.phase == Wrong
    ensures var r := Frame(st, s, finger, now);
      (r.phase == Playing <==> now - s.wrongStartTime > WrongModalDuration) &&
      (r.phase == Playing ==>
         r.score == s.score && r.level == s.level && r.currentTarget == 1 &&
         r.targetStartTime == now && |r.targets| == r.targetsPerLevel &&
         forall i :: 0 <= i < |r.targets| ==> FreshTarget(r.targets[i], i, now)) &&
      (r.phase != Playing ==> r == s.(sparks := Survivors(s.sparks)))
  {
    var s0 := s.(sparks := Survivors(s.sparks));
    FilterConsistent(s);
    if now - s.wrongStartTime > WrongModalDuration {
      RegenerateConsistent(st, s0.(phase := Playing), now);
    }
  }

  /** With every target done, the level completes in the first playing
      frame that leaves no particle; and it completes in no other way. */
  lemma LevelCompleteFrame(st: Stage, s: Snapshot, finger: Option<Point>, now: int)
    requires Consistent(s) && s.phase == Playing
    ensures var r := Frame(st, s, finger, now);
      r.phase == LevelComplete <==>
        s.currentTarget > s.targetsPerLevel && Survivors(s.sparks) == []
  {
    var s0 := s.(sparks := Survivors(s.sparks));
    FilterConsistent(s);
    TouchStepEffect(s0, finger, now);
    if s.currentTarget > s.targetsPerLevel && finger.Some? {
      FirstTouchedNone(s.targets, finger.value);
    }
    var s1 := TouchStep(s0, finger, now);
    EndOfFrameEffect(s1, now);
    if CorrectEdge(s0, finger) {
      assert s1.sparks != [];
    }
  }

  /** A run of frames, one per fingertip sample and clock reading. */
  function Frames(st: Stage, s: Snapshot, fingers: seq<Option<Point>>, times: seq<int>): Snapshot
    requires Consistent(s) && |times| == |fingers|
    decreases |fingers|
  {
    if fingers == [] then s
    else
      FrameConsistent(st, s, fingers[0], times[0]);
      Frames(st, Frame(st, s, fingers[0], times[0]), fingers[1..], times[1..])
  }

  /** Once every target is done, a playing frame ignores the fingertip:
      only the particles move, and the level completes when none is left. */
  lemma FinishedFrame(st: Stage, s: Snapshot, finger: Option<Point>, now: int)
    requires Consistent(s) && s.phase == Playing && s.currentTarget > s.targetsPerLevel
    ensures var r := Frame(st, s, finger, now);
      Consistent(r) && r.sparks == Survivors(s.sparks) &&
      r.currentTarget == s.currentTarget && r.targetsPerLevel == s.targetsPerLevel &&
      r.score == s.score && r.level == s.level &&
      r.phase == (if Survivors(s.sparks) == [] then LevelComplete else Playing)
  {
    var s0 := s.(sparks := Survivors(s.sparks));
    FilterConsistent(s);
    FrameConsistent(st, s, finger, now);
    if finger.Some? {
      FirstTouchedNone(s0.targets, finger.value);
    }
    TouchStepEffect(s0, finger, now);
    EndOfFrameEffect(TouchStep(s0, finger, now), now);
  }

  /** A completed level stays completed whatever frames follow. */
  lemma {:induction false} StaysComplete(st: Stage, s: Snapshot, fingers: seq<Option<Point>>, times: seq<int>)
    requires Consistent(s) && s.phase == LevelComplete && |times| == |fingers|
    decreases |fingers|
    ensures Frames(st, s, fingers, times).phase == LevelComplete
  {
    if fingers != [] {
      IdleFrame(st, s, fingers[0], times[0]);
      FrameConsistent(st, s, fingers[0], times[0]);
      StaysComplete(st, Frame(st, s, fingers[0], times[0]), fingers[1..], times[1..]);
    }
  }

  /** With every target done, the level is complete after any twenty
      frames, whatever the fingertip and the clock do: the particle pool
      drains and nothing else can happen. */
  lemma FinishedLevelCompletes(st: Stage, s: Snapshot, fingers: seq<Option<Point>>, times: seq<int>)
    requires Consistent(s) && s.phase == Playing && s.currentTarget > s.targetsPerLevel
    requires |times| == |fingers| >= ParticleSteps
    ensures Frames(st, s, fingers, times).phase == LevelComplete
  {
    CompletesFrom(st, s, fingers, times, 0);
  }

  lemma {:induction false} CompletesFrom(st: Stage, s: Snapshot, fingers: seq<Option<Point>>, times: seq<int>, m: int)
    requires Consistent(s) && s.phase == Playing && s.currentTarget > s.targetsPerLevel
    requires |times| == |fingers| >= 1 && AllPast(s.sparks, m) && |fingers| + m >= ParticleSteps
    decreases |fingers|
    ensures Frames(st, s, fingers, times).phase == LevelComplete
  {
    var r := Frame(st, s, fingers[0], times[0]);
    FinishedFrame(st, s, fingers[0], times[0]);
    assert Frames(st, s, fingers, times) == Frames(st, r, fingers[1..], times[1..]);
    if |fingers| == 1 {
      SurvivorsEmpty(s.sparks);
      assert r.phase == LevelComplete;
      StaysComplete(st, r, fingers[1..], times[1..]);
    } else if r.phase == LevelComplete {
      StaysComplete(st, r, fingers[1..], times[1..]);
    } else {
      SurvivorsRaiseFloor(s.sparks, m);
      CompletesFrom(st, r, fingers[1..], times[1..], m + 1);
    }
  }

  /** A playing frame ends the game exactly when, after the touch, a
      target is still current and its ten seconds have run out; the
      displayed countdown is what remains of them. */
  lemma GameOverFrame(st: Stage, s: Snapshot, finger: Option<Point>, now: int)
    requires Consistent(s) && s.phase == Playing
    ensures var r := Frame(st, s, finger, now);
      (r.phase == GameOver <==>
         r.currentTarget <= r.targetsPerLevel && now - r.targetStartTime >= TargetTimeLimit) &&
      (r.currentTarget <= r.targetsPerLevel ==> r.targetTimer == Countdown(now - r.targetStartTime))
  {
    var s0 := s.(sparks := Survivors(s.sparks));
    FilterConsistent(s);
    TouchStepEffect(s0, finger, now);
    EndOfFrameEffect(TouchStep(s0, finger, now), now);
  }

  /** The game-over, level-complete and waiting phases are left only by
      reset, next level or the camera: a frame only moves the particles. */
  lemma IdleFrame(st: Stage, s: Snapshot, finger: Option<Point>, now: int)
    requires Consistent(s) && s.phase != Playing && s.phase != Wrong
    ensures Frame(st, s, finger, now) == s.(sparks := Survivors(s.sparks))
  {
  }

  // ---------------------------------------------------------------------
  // Reset, next level, camera

  /** Reset starts level 1 with two fresh targets and score 0 from any
      state; the edge flag is not reset. */
  lemma ResetState(st: Stage, s: Snapshot, now: int)
    ensures var r := Reset(st, s, now);
      Consistent(r) && r.phase == Playing && r.score == 0 && r.level == 1 &&
      r.targetsPerLevel == 2 && |r.targets| == 2 && r.currentTarget == 1 && r.sparks == [] &&
      r.targetStartTime == now && r.touchedLastFrame == s.touchedLastFrame &&
      r.targetTimer == s.targetTimer &&
      forall i :: 0 <= i < |r.targets| ==> FreshTarget(r.targets[i], i, now)
  {
    ResetConsistent(st, s, now);
    RegenerateConsistent(st, s.(score := 0, level := 1, currentTarget := 1, targetsPerLevel := 2,
                                phase := Playing, sparks := []), now);
  }

  /** Next level goes one level up from whatever phase it is called in,
      keeping the score, with one target more than before up to eight. */
  lemma NextLevelState(st: Stage, s: Snapshot, now: int)
    requires Consistent(s)
    ensures var r := NextLevel(st, s, now);
      Consistent(r) && r.phase == Playing && r.level == s.level + 1 && r.score == s.score &&
      r.targetsPerLevel == (if s.targetsPerLevel < MaxTargets then s.targetsPerLevel + 1 else MaxTargets) &&
      |r.targets| == r.targetsPerLevel && r.currentTarget == 1 && r.sparks == [] &&
      r.targetStartTime == now &&
      forall i :: 0 <= i < |r.targets| ==> FreshTarget(r.targets[i], i, now)
  {
    var raised := s.(level := s.level + 1, currentTarget := 1,
                     targetsPerLevel := TargetsFor(s.level + 1), phase := Playing, sparks := []);
    RegenerateConsistent(st, raised, now);
    assert NextLevel(st, s, now) == Regenerate(st, raised, now);
    TargetsForRange(s.level);
    TargetsForRange(s.level + 1);
  }

  /** The camera becoming ready starts play at the current level. */
  lemma CameraReadyState(st: Stage, now: int)
    ensures var r := CameraReady(st, Initial(now), now);
      Consistent(r) && r.phase == Playing && r.level == 1 && r.score == 0 &&
      |r.targets| == 2 && r.currentTarget == 1 &&
      forall i :: 0 <= i < |r.targets| ==> FreshTarget(r.targets[i], i, now)
  {
    RegenerateConsistent(st, Initial(now).(phase := Playing), now);
  }
}
