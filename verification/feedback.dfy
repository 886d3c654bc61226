/** The celebration particles spawned by a correct touch. Each one flies
    from the touch point to the score display; its progress is counted in
    whole steps of 0.05, so it is done after ParticleSteps updates. */
module Feedback {
  import opened Settings

  /** The value of a particle: where it started, where it flies, and how
      many updates it has had. */
  datatype Spark = Spark(origin: Point, destination: Point, progress: nat)

  class Particle {
    const origin: Point
    const destination: Point
    var progress: nat

    constructor (origin: Point, destination: Point)
      ensures this.origin == origin && this.destination == destination && progress == 0
    {
      this.origin := origin;
      this.destination := destination;
      progress := 0;
    }

    function View(): Spark
      reads this
    {
      Spark(origin, destination, progress)
    }

    /** Advance by one step and report whether the flight is over. */
    method Update() returns (done: bool)
      modifies this`progress
      ensures progress == old(progress) + 1
      ensures done <==> progress >= ParticleSteps
    {
      progress := progress + 1;
      done := progress >= ParticleSteps;
    }
  }

  function Advance(s: Spark): Spark
  {
    s.(progress := s.progress + 1)
  }

  /** The per-frame filter: advance every particle, in order, and keep
      those that are not done. */
  function Survivors(sparks: seq<Spark>): seq<Spark>
  {
    if sparks == [] then []
    else
      var a := Advance(sparks[|sparks| - 1]);
      Survivors(sparks[..|sparks| - 1]) + (if a.progress >= ParticleSteps then [] else [a])
  }

  /** The filter adds no particle, and every survivor is short of done. */
  lemma {:induction false} SurvivorsBounded(sparks: seq<Spark>)
    ensures var r := Survivors(sparks);
      |r| <= |sparks| && forall i :: 0 <= i < |r| ==> r[i].progress < ParticleSteps
  {
    if sparks != [] {
      SurvivorsBounded(sparks[..|sparks| - 1]);
    }
  }

  /** A particle survives the filter exactly when it was short of its last
      step, and then with its progress advanced by one. */
  lemma {:induction false} SurvivorsOfOne(s: Spark)
    ensures Survivors([s]) == if s.progress + 1 < ParticleSteps then [Advance(s)] else []
  {
    assert [s][..0] == [];
  }

  /** The filter distributes over concatenation. */
  lemma {:induction false} SurvivorsAppend(a: seq<Spark>, b: seq<Spark>)
    decreases |b|
    ensures Survivors(a + b) == Survivors(a) + Survivors(b)
  {
    if b == [] {
      assert a + b == a;
    } else {
      var b' := b[..|b| - 1];
      SurvivorsAppend(a, b');
      assert (a + b)[..|a + b| - 1] == a + b';
      assert (a + b)[|a + b| - 1] == b[|b| - 1];
    }
  }

  /** The pool is empty after the filter exactly when every particle was
      on its last step. */
  lemma {:induction false} SurvivorsEmpty(sparks: seq<Spark>)
    ensures Survivors(sparks) == [] <==>
      forall i :: 0 <= i < |sparks| ==> sparks[i].progress + 1 >= ParticleSteps
  {
    if sparks != [] {
      var init := sparks[..|sparks| - 1];
      SurvivorsEmpty(init);
      assert forall i :: 0 <= i < |init| ==> init[i] == sparks[i];
    }
  }

  /** The filter applied `frames` times. */
  function AfterFrames(sparks: seq<Spark>, frames: nat): seq<Spark>
    decreases frames
  {
    if frames == 0 then sparks else AfterFrames(Survivors(sparks), frames - 1)
  }

  /** Every particle has had at least `m` updates. */
  predicate AllPast(sparks: seq<Spark>, m: int)
  {
    forall i :: 0 <= i < |sparks| ==> sparks[i].progress >= m
  }

  /** After one frame every survivor has one more update than the fewest
      before. */
  lemma {:induction false} SurvivorsRaiseFloor(sparks: seq<Spark>, m: int)
    requires AllPast(sparks, m)
    ensures AllPast(Survivors(sparks), m + 1)
  {
    if sparks != [] {
      var init := sparks[..|sparks| - 1];
      assert AllPast(init, m) by {
        assert forall i :: 0 <= i < |init| ==> init[i] == sparks[i];
      }
      SurvivorsRaiseFloor(init, m);
    }
  }

  /** However the pool was filled, it is empty after ParticleSteps passes
      of the filter. */
  lemma PoolDrains(sparks: seq<Spark>, frames: nat)
    requires frames >= ParticleSteps
    ensures AfterFrames(sparks, frames) == []
  {
    DrainFrom(sparks, frames, 0);
  }

  lemma {:induction false} DrainFrom(sparks: seq<Spark>, frames: nat, m: int)
    requires AllPast(sparks, m) && frames >= 1 && frames + m >= ParticleSteps
    decreases frames
    ensures AfterFrames(sparks, frames) == []
  {
    if frames == 1 {
      SurvivorsEmpty(sparks);
    } else {
      SurvivorsRaiseFloor(sparks, m);
      DrainFrom(Survivors(sparks), frames - 1, m + 1);
    }
  }
}
