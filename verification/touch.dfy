/** The touch resolver: which incomplete target, in array order, the
    fingertip is over, and the `beingTouched` highlight the scan leaves
    behind. */
module Touch {
  import opened Settings
  import opened Layout

  const TouchThresholdSq: int := TouchThreshold * TouchThreshold

  /** The fingertip is strictly inside the touch threshold of the target. */
  predicate InReach(t: Target, f: Point)
  {
    DistSq(f, t.pos) < TouchThresholdSq
  }

  predicate Touchable(t: Target, f: Point)
  {
    !t.completed && InReach(t, f)
  }

  /** The number of the first touchable target in array order, if any. */
  function FirstTouched(ts: seq<Target>, f: Point): Option<int>
  {
    if ts == [] then None
    else if Touchable(ts[0], f) then Some(ts[0].number)
    else FirstTouched(ts[1..], f)
  }

  /** The targets after the scan: each incomplete target passed over gets
      `beingTouched` cleared, the matched one gets it set, and the scan
      stops there, leaving the rest of the array as it was. */
  function Highlight(ts: seq<Target>, f: Point): seq<Target>
  {
    if ts == [] then []
    else if ts[0].completed then [ts[0]] + Highlight(ts[1..], f)
    else if InReach(ts[0], f) then [ts[0].(beingTouched := true)] + ts[1..]
    else [ts[0].(beingTouched := false)] + Highlight(ts[1..], f)
  }

  /** No target before index i is touchable. */
  predicate NoTouchBefore(ts: seq<Target>, f: Point, i: int)
    requires i <= |ts|
  {
    forall j :: 0 <= j < i ==> !Touchable(ts[j], f)
  }

  /** Index h holds the first touchable target. */
  predicate IsFirstTouch(ts: seq<Target>, f: Point, h: int)
  {
    0 <= h < |ts| && Touchable(ts[h], f) && NoTouchBefore(ts, f, h)
  }

  /** The resolver reports the first touchable target's number. */
  lemma {:induction false} FirstTouchedAt(ts: seq<Target>, f: Point, h: int)
    requires IsFirstTouch(ts, f, h)
    ensures FirstTouched(ts, f) == Some(ts[h].number)
  {
    if h > 0 {
      assert !Touchable(ts[0], f);
      assert IsFirstTouch(ts[1..], f, h - 1) by {
        assert forall j :: 0 <= j < h - 1 ==> ts[1..][j] == ts[j + 1];
      }
      FirstTouchedAt(ts[1..], f, h - 1);
    }
  }

  /** The resolver reports nothing exactly when no target is touchable. */
  lemma {:induction false} FirstTouchedNone(ts: seq<Target>, f: Point)
    ensures FirstTouched(ts, f) == None <==> NoTouchBefore(ts, f, |ts|)
  {
    if ts != [] {
      FirstTouchedNone(ts[1..], f);
      assert forall j :: 1 <= j < |ts| ==> ts[j] == ts[1..][j - 1];
    }
  }

  /** Whatever the resolver reports is the first touchable target: it is
      never a completed target, and it is within the threshold. */
  lemma {:induction false} FirstTouchedSome(ts: seq<Target>, f: Point)
    requires FirstTouched(ts, f).Some?
    ensures exists h :: IsFirstTouch(ts, f, h) && FirstTouched(ts, f).value == ts[h].number
  {
    if Touchable(ts[0], f) {
      assert IsFirstTouch(ts, f, 0);
    } else {
      FirstTouchedSome(ts[1..], f);
      var h :| IsFirstTouch(ts[1..], f, h) && FirstTouched(ts[1..], f).value == ts[1..][h].number;
      assert IsFirstTouch(ts, f, h + 1) by {
        assert forall j :: 1 <= j <= h ==> ts[j] == ts[1..][j - 1];
      }
    }
  }

  /** Targets numbered 1..n in array order. */
  predicate Numbered(ts: seq<Target>)
  {
    forall i :: 0 <= i < |ts| ==> ts[i].number == i + 1
  }

  /** On a numbered layout a reported number n names target n, which is
      incomplete and within the threshold. */
  lemma FirstTouchedNumbered(ts: seq<Target>, f: Point)
    requires Numbered(ts)
    ensures var hit := FirstTouched(ts, f);
      hit.Some? ==> 1 <= hit.value <= |ts| && Touchable(ts[hit.value - 1], f) &&
                    NoTouchBefore(ts, f, hit.value - 1)
  {
    if FirstTouched(ts, f).Some? {
      FirstTouchedSome(ts, f);
    }
  }

  /** What the scan does to the highlight flags: only `beingTouched`
      changes; completed targets are left alone; before the match every
      incomplete target is cleared; the match is set; after the match
      nothing changes. */
  lemma {:induction false} HighlightSpec(ts: seq<Target>, f: Point)
    ensures var r := Highlight(ts, f);
      |r| == |ts| &&
      (forall i :: 0 <= i < |ts| ==> r[i] == ts[i].(beingTouched := r[i].beingTouched)) &&
      (forall i :: 0 <= i < |ts| && ts[i].completed ==> r[i] == ts[i]) &&
      (forall i :: 0 <= i < |ts| && NoTouchBefore(ts, f, i) && !ts[i].completed ==>
         r[i].beingTouched == InReach(ts[i], f)) &&
      (forall i :: 0 <= i < |ts| && !NoTouchBefore(ts, f, i) ==> r[i] == ts[i])
  {
    if ts != [] {
      HighlightSpec(ts[1..], f);
      var r := Highlight(ts, f);
      forall i | 1 <= i < |ts|
        ensures NoTouchBefore(ts, f, i) <==> !Touchable(ts[0], f) && NoTouchBefore(ts[1..], f, i - 1)
      {
        assert forall j :: 1 <= j < i ==> ts[j] == ts[1..][j - 1];
      }
      if !ts[0].completed && InReach(ts[0], f) {
        assert forall i :: 1 <= i < |ts| ==> !NoTouchBefore(ts, f, i);
      } else {
        assert forall i :: 1 <= i < |ts| ==> r[i] == Highlight(ts[1..], f)[i - 1];
      }
    }
  }

  /** The scan keeps the numbering and the completion flags. */
  lemma HighlightKeepsLayout(ts: seq<Target>, f: Point)
    ensures var r := Highlight(ts, f);
      |r| == |ts| &&
      forall i :: 0 <= i < |ts| ==>
        r[i].pos == ts[i].pos && r[i].number == ts[i].number && r[i].completed == ts[i].completed &&
        r[i].wrong == ts[i].wrong && r[i].startTime == ts[i].startTime
  {
    HighlightSpec(ts, f);
  }
}
