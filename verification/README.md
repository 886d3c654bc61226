# A model of the numbered-circle touch game

The game shows numbered circles on a camera view. The player touches
them with the tip of the index finger, in order. MediaPipe's hand tracker
finds the fingertip. This project models the game's deterministic core,
from `game.js`, and proves properties of it.

The core covered:

- the target layout generator. It uses rejection sampling with a cap of
  101 candidates per target and `min(level + 1, 8)` targets per level.
- the touch resolver. It finds the first incomplete target within reach
  of the fingertip and leaves the `beingTouched` highlight flags behind.
- a correct touch and a wrong touch.
- the particle effect and its per-frame filter.
- the per-frame update: the touch edge, level complete, the 10-second
  countdown, and the 2-second wrong-touch dwell.
- reset, next level, and the start of play once the camera is ready.

The project has six modules:

- `Settings`: the constants, points, and the level-size rule.
- `Layout`: the generator as functions over a stream of `Math.random()`
  values (`Place` for one target, `Trace` for the loop, `Generate` for a
  level).
- `Touch`: the resolver (`FirstTouched`) and the highlight it leaves
  (`Highlight`).
- `Feedback`: the `Particle` class, its value `Spark`, and the filter
  `Survivors`.
- `Round`: the whole game state as a value, `Snapshot`. Each operation is
  a function on it (`Frame`, `Complete`, `WrongTouch`, `Regenerate`,
  `Reset`, `NextLevel`, `CameraReady`). There is an invariant
  `Consistent` that every operation keeps, plus lemmas about what a frame
  does.
- `Game`: class `Controller`. Its fields are the page's module-level
  variables, and its methods update them in place as the source does.
  The operations the page calls (the constructor, `Update`, `ResetGame`,
  `NextLevel`, `CameraReady`) are proved to produce the state of their
  `Round` function (`Model() == Round.<operation>(old(Model()), ...)`) and
  to establish or keep the class invariant `Valid()`. The methods they call
  either produce the state of a `Round` function too (`GenerateTargets`,
  `CompleteTarget`, `WrongTouch`, `UpdateParticles`, `Respond`,
  `HandleTouch`, `EndPlayingFrame`, `ResumePlay`) or state their own effect
  on the fields they change (`Random`, `SpacingOk`, `DrawCandidate`,
  `SampleCandidate`, `PlaceTargets`, `CheckTouch`, `AdvanceTarget`,
  `LaunchParticle`, `ClearProgress`, `RaiseLevel`). The particles are `Particle` objects in a
  `seq<Particle>` field, and a ghost `sparks` field mirrors their values.

Behaviour of the code that the model keeps, and proves:

- `nextLevel` has no guard: it raises the level from any phase
  (`Round.NextLevelState`).
- The resolver stops at the first match. Targets later in the array keep
  whatever `beingTouched` value an earlier frame left (`Touch.HighlightSpec`),
  so more than one target can carry `beingTouched`, for instance after the
  fingertip moves back to an earlier target.
- Sampling may keep a candidate that overlaps a placed target. This
  happens only after 101 candidates have been drawn: the `attempts > 100`
  test allows 101 candidates (`Layout.PlaceBounds`, `Layout.CapKeepsOverlap`).
- A wrong touch does not stop the countdown in the same frame. The game
  can end in the frame that enters the wrong phase (`Round.WrongTouchFrame`).
- The dwell test is strict: at exactly 2000 ms the wrong phase still holds
  (`Round.WrongDwell`).
- Reset clears neither the touch-edge flag nor the displayed timer
  (`Round.ResetState`).

## Model

| member | source | states |
|---|---|---|
| Settings.TargetsForRange | game.js:145 | From level 1 up, a level has between 2 and 8 targets, exactly min(level + 1, 8) |
| Settings.TargetsForMonotone | game.js:145 | The target count never drops as the level rises, and below the cap a higher level has strictly more targets |
| Settings.DisplayedSeconds | game.js:452 | The displayed timer is the remaining time rounded up to whole seconds: (secs - 1) * 1000 < ms <= secs * 1000 |
| Layout.ScaleRange | game.js:154-155 | floor(r * span + offset) lies in [offset, offset + span) for a draw r in [0, 1) |
| Layout.CandidateInArea | game.js:147-155 | Every candidate lies inside the margins: x in [80, width - 80), y in [180, height - 130) |
| Layout.SpacedMeansFar | game.js:157-164 | The scan accepts a candidate exactly when every placed target is at least three radii (150 px) away |
| Layout.PlaceBounds | game.js:150-168 | Sampling one target draws between 1 and 101 candidates, two random numbers each, and keeps a well-spaced candidate unless it reached the cap |
| Layout.Place | game.js:153-168 | The do-while loop for one target, as a function of the draws; its meaning is stated by Layout.PlaceBounds, Layout.PlaceRejectsEarlier and Layout.PlaceKeepsLastCandidate |
| Layout.PlaceRejectsEarlier | game.js:153-168 | Every candidate drawn before the kept one failed the spacing test, so the sampler never passes over a well-spaced candidate |
| Layout.PlaceKeepsLastCandidate | game.js:153-168 | The kept position is always the last candidate drawn |
| Layout.CapKeepsOverlap | game.js:166-168 | Once the cap is reached, an overlapping candidate is kept after exactly 101 attempts, so sampling never loops forever |
| Layout.TraceCost | game.js:149-168 | Across the outer loop each target takes 1 to 101 candidates, so i targets read between 2i and 202i random numbers |
| Layout.TracePrefix | game.js:149-179 | Later rounds of the loop keep the positions and attempt counts of earlier ones |
| Layout.TraceSpacing | game.js:149-168 | A position accepted before the cap is at least three radii from every earlier position |
| Layout.NumberSpec | game.js:170-178 | The pushed targets sit at the sampled positions in order, are numbered 1..n, have every flag clear, and only target 1 has a start time |
| Layout.NumberAppend | game.js:170-178 | Pushing one more position appends target n + 1 and leaves the earlier targets unchanged |
| Layout.Generate | game.js:143-179 | The generator: sample the level's positions in order and number them 1..n; its meaning is stated by Layout.LevelTargetsFresh, Layout.LevelDraws and Layout.LevelSpacing |
| Layout.LevelTargetsFresh | game.js:143-183 | A generated level has n fresh targets numbered 1..n with only the first stamped now |
| Layout.LevelDraws | game.js:149-168 | Generating n targets reads between 2n and 202n random numbers |
| Layout.LevelSpacing | game.js:149-179 | In a generated level, target i + 1 is at least three radii from every earlier target unless its sampling hit the cap |
| Touch.FirstTouched | game.js:343-357 | The number checkTouch returns; its meaning is stated by Touch.FirstTouchedAt, Touch.FirstTouchedNone, Touch.FirstTouchedSome and Touch.FirstTouchedNumbered |
| Touch.Highlight | game.js:344-355 | The beingTouched flags checkTouch leaves behind; its meaning is stated by Touch.HighlightSpec |
| Touch.FirstTouchedAt | game.js:343-357 | When index h is the first incomplete target in reach, the resolver returns that target's number |
| Touch.FirstTouchedNone | game.js:343-357 | The resolver returns null exactly when no incomplete target is in reach |
| Touch.FirstTouchedSome | game.js:343-357 | Any number the resolver returns belongs to the first incomplete target in reach |
| Touch.FirstTouchedNumbered | game.js:343-357 | On a layout numbered 1..n, a returned number n names target n, which is incomplete, in reach, and has no touchable target before it |
| Touch.HighlightSpec | game.js:344-355 | The scan changes only beingTouched. It sets the flag on the match, clears it on incomplete targets before the match, and leaves completed targets and everything after the match as they were |
| Touch.HighlightKeepsLayout | game.js:344-355 | The scan keeps positions, numbers, completion, wrong flags and start times |
| Feedback.Particle.constructor | game.js:292-299 | A new particle starts at the given point, flies to the given destination, and has made no progress |
| Feedback.Particle.Update | game.js:301-304 | An update advances the particle by one step and reports done exactly when the step count reaches 20 |
| Feedback.Survivors | game.js:397-400 | The particle filter on values; its meaning is stated by Feedback.SurvivorsBounded, Feedback.SurvivorsOfOne, Feedback.SurvivorsAppend, Feedback.SurvivorsEmpty and Feedback.SurvivorsRaiseFloor |
| Feedback.SurvivorsBounded | game.js:397-400 | The filter never adds particles, and every survivor is short of done |
| Feedback.SurvivorsOfOne | game.js:397-400 | A particle survives exactly when its update leaves it short of 20 steps, and then it has advanced by one |
| Feedback.SurvivorsAppend | game.js:397-400 | The filter treats each particle on its own and keeps the order: it distributes over concatenation |
| Feedback.SurvivorsEmpty | game.js:397-400 | The pool is empty after the filter exactly when every particle was on its last step |
| Feedback.SurvivorsRaiseFloor | game.js:397-400 | After one frame every survivor has had one more update than the fewest before |
| Feedback.PoolDrains | game.js:397-400 | Whatever the pool holds, twenty passes of the filter empty it |
| Round.Complete | game.js:359-379 | completeTarget on the state value; its meaning is stated by Round.CompleteTargets and Round.TouchStepEffect |
| Round.WrongTouch | game.js:381-392 | wrongTouch on the state value; its meaning is stated by Round.TouchStepEffect and Round.WrongTouchFrame |
| Round.Frame | game.js:394-453 | update on the state value; its meaning is stated by the frame lemmas below |
| Round.Reset | game.js:478-487 | resetGame on the state value; its meaning is stated by Round.ResetState |
| Round.NextLevel | game.js:489-498 | nextLevel on the state value; its meaning is stated by Round.NextLevelState |
| Round.CompleteTargets | game.js:361-374 | A correct touch marks the current target completed and clears its beingTouched, and keeps every position, number and wrong flag; no other target changes completion |
| Round.InitialConsistent | game.js:14-28 | The page-load state meets the invariant |
| Round.Countdown | game.js:429-434 | The remaining time is never negative, is zero exactly when ten seconds have elapsed, and otherwise adds up with the elapsed time to ten seconds |
| Round.HighlightConsistent | game.js:344-355 | The highlight scan keeps the invariant |
| Round.RegenerateConsistent | game.js:143-183 | A fresh layout meets the invariant: TargetsFor(level) fresh targets numbered 1..n, target 1 current with its countdown starting now |
| Round.CompleteConsistent | game.js:359-379 | A correct touch keeps the invariant |
| Round.WrongTouchConsistent | game.js:381-392 | A wrong touch keeps the invariant |
| Round.RespondConsistent | game.js:407-416 | Acting on the resolved touch keeps the invariant |
| Round.FlagConsistent | game.js:413-418 | The touch-edge flag plays no part in the invariant |
| Round.TouchStepConsistent | game.js:403-419 | The touch part of a frame keeps the invariant |
| Round.EndOfFrameConsistent | game.js:421-440 | The level-complete and timer checks keep the invariant |
| Round.FilterConsistent | game.js:397-400 | The particle filter keeps the invariant |
| Round.FrameConsistent | game.js:394-453 | Every frame keeps the invariant, in every phase |
| Round.ResetConsistent | game.js:478-487 | Reset meets the invariant from any state |
| Round.NextLevelConsistent | game.js:489-498 | Next level keeps the invariant from any consistent state, whatever the phase |
| Round.CameraReadyConsistent | game.js:120-123 | The start of play keeps the invariant |
| Round.TouchStepEffect | game.js:403-419 | A new touch on the current target scores one, advances the current target, launches a particle, completes that target and clears its beingTouched. A new touch on another target n enters the wrong phase now and flags target n and no other. Otherwise no score, progress, completion or wrong flag changes. Positions and numbers always stay, and afterwards the flag says whether an incomplete target is under the fingertip |
| Round.EndOfFrameEffect | game.js:421-440 | The end of a frame changes only the phase and the timer. It completes the level exactly when all targets are done and no particle is left, ends the game exactly when a current target's ten seconds are up, and recomputes the countdown only while a target is current |
| Round.FrameScore | game.js:402-419 | A frame raises the score, by exactly one, only when the fingertip newly touches the current target during play; that also advances the current target, and the level does not complete in that frame |
| Round.SustainedContact | game.js:407-416 | A fingertip that stays on a target acts once: later frames neither score nor enter the wrong phase |
| Round.WrongTouchFrame | game.js:407-440 | A new touch on a later target flags it and starts the dwell now, keeping score and progress; the phase is Wrong, or GameOver when the countdown ran out in the same frame |
| Round.WrongDwell | game.js:441-447 | The wrong phase ends exactly when more than 2000 ms have passed; play resumes on a fresh layout with score and level kept; until then only the particles change |
| Round.LevelCompleteFrame | game.js:421-427 | A playing frame completes the level exactly when all targets were already done and the filtered pool is empty |
| Round.FinishedFrame | game.js:402-427 | Once every target is done, a playing frame ignores the fingertip: only the particles move, and the level completes when none is left |
| Round.StaysComplete | game.js:394-453 | A completed level stays completed whatever frames follow |
| Round.FinishedLevelCompletes | game.js:397-427 | With every target done, any twenty frames complete the level, whatever the fingertip and the clock do |
| Round.GameOverFrame | game.js:429-440 | A playing frame ends the game exactly when a target is still current and its ten seconds are up, and the timer shows what is left |
| Round.IdleFrame | game.js:394-453 | In the waiting, level-complete and game-over phases a frame only moves the particles |
| Round.ResetState | game.js:478-487 | Reset gives level 1, score 0, two fresh targets, no particles and play, from any state, keeping the touch-edge flag and the displayed timer |
| Round.NextLevelState | game.js:489-498 | Next level, from any phase, gives level + 1 with the score kept, one target more (up to 8), all fresh, and no particles |
| Round.CameraReadyState | game.js:120-123 | From page load, a ready camera starts level 1 play with two fresh targets |
| Game.Controller.constructor | game.js:14-28 | The page-load state: waiting for the camera, level 1, score 0, two targets per level, a full timer |
| Game.Controller.Random | game.js:154-155 | Each Math.random() call reads the next value of the stream |
| Game.Controller.SpacingOk | game.js:157-164 | The scan with early exit accepts exactly the candidates the spacing rule accepts |
| Game.Controller.DrawCandidate | game.js:153-155 | A candidate is built from two successive draws, x first |
| Game.Controller.SampleCandidate | game.js:150-168 | The do-while loop produces the position, and consumes the draws, of the sampling specification |
| Game.Controller.PlaceTargets | game.js:149-179 | The outer loop builds exactly the targets of the generator specification and leaves the draw counter where it says |
| Game.Controller.GenerateTargets | game.js:143-183 | generateTargets produces the state of Round.Regenerate |
| Game.Controller.CheckTouch | game.js:343-357 | checkTouch returns the resolver's answer and leaves the targets as Highlight says |
| Game.Controller.CompleteTarget | game.js:359-379 | completeTarget produces the state of Round.Complete and keeps the particles tracked |
| Game.Controller.AdvanceTarget | game.js:368-374 | The score and the current target go up by one, and only when a next target exists are its start time and the countdown baseline set to now |
| Game.Controller.LaunchParticle | game.js:366 | A correct touch adds one particle from the touch point to the score display |
| Game.Controller.WrongTouch | game.js:381-392 | wrongTouch produces the state of Round.WrongTouch: phase Wrong, dwell from now, every target with that number flagged |
| Game.Controller.UpdateParticles | game.js:397-400 | The in-place filter leaves exactly the survivors, in order, and advances each particle object |
| Game.Controller.Respond | game.js:407-416 | The branch on the resolved touch produces the state of Round.Respond |
| Game.Controller.HandleTouch | game.js:403-419 | The touch part of update produces the state of Round.TouchStep |
| Game.Controller.Update | game.js:394-453 | update produces the state of Round.Frame and keeps the class invariant |
| Game.Controller.EndPlayingFrame | game.js:421-440 | The level-complete and timer checks produce the state of Round.EndOfFrame |
| Game.Controller.ResumePlay | game.js:441-447 | The end of the dwell produces play on a fresh layout |
| Game.Controller.ResetGame | game.js:478-487 | resetGame produces the state of Round.Reset, valid from any state |
| Game.Controller.ClearProgress | game.js:480-485 | Score 0, level 1, target 1, two targets per level, play, and no particles |
| Game.Controller.NextLevel | game.js:489-498 | nextLevel produces the state of Round.NextLevel from any phase |
| Game.Controller.RaiseLevel | game.js:490-495 | Level up by one, target 1, the target count for the new level, play, and no particles |
| Game.Controller.CameraReady | game.js:120-123 | Start of play produces the state of Round.CameraReady |

## Left out

- The camera, MediaPipe, the DOM modals and the canvas drawing (`draw`, `drawTargets`, `drawFingerIndicator`, `Particle.draw`) are not modelled. They are I/O and rendering.
- `onHandResults` is not modelled. The fingertip it computes is the `finger` parameter of `Update`.
- The fingertip is a floating-point canvas position in the source. The model takes it as an integer point.
- Distances are compared squared, in integers. For the integer candidate positions of the generator this is the same as the source's `Math.sqrt` test, because a correctly rounded square root keeps the order against 150. For the touch test it holds for an integer fingertip.
- `Math.random()` is a stream `nat -> real` of exact reals held by the controller, with a counter of values read. Floating-point rounding of `r * span + offset` is not modelled.
- `Date.now()` is the parameter `now`, in milliseconds. The several clock reads within one source call become one value.
- The countdown `targetTimer` is kept in milliseconds. The source keeps seconds as a float. The display rounding is `Settings.DisplayedSeconds`.
- Particle progress is counted in whole steps. The source adds 0.05 per update, and the twentieth sum is 1.0000000000000002, so a particle is done on its twentieth update in both. The particle's screen position and scale are left out, because they only serve drawing.
- Targets are values in a sequence, not shared objects. The source never aliases a target outside the array.
- The event wiring (`setupEventListeners`, the R key, the next and restart buttons, `gameLoop`, `init`) is left out. The operations it calls are modelled.
- `wrongModalStartTime` starts as `null` in the source. The model uses 0, which is what subtraction makes of `null`. The wrong phase cannot be entered before it is set.
- Game.Controller.CompleteTarget: requires that a target numbered `currentTarget` exists and is in range. The source's loop would do nothing otherwise. The only caller reaches it after the resolver returned that number.
- Game.Controller.Update: requires the class invariant `Valid()`. The source has no precondition, but the invariant holds from page load on: the constructor and every operation establish it.
- Game.Controller.NextLevel: requires `Valid()`. Only the proof needs it. The method still raises the level from any phase.
- Game.Controller.CameraReady: requires `Valid()`, which holds at page load, when the source calls it.
