/** Even samples along a highlighter stroke: `samplePathForSynctex` of src/highlighterSnap.ts.

    Distances between points come from `dist`, which stands for `Math.hypot` and is only known to be
    non-negative. */
module HighlighterSampling {

  datatype Point = Point(x: real, y: real)

  /** A piece of the text under the stroke: how many characters it has, and its width. */
  datatype Fragment = Fragment(length: nat, w: real)

  type Distance = (Point, Point) -> real

  ghost predicate NonNegative(dist: Distance) {
    forall p, q :: dist(p, q) >= 0.0
  }

  // ---------- the step ----------

  function CharWidths(fragments: seq<Fragment>): seq<real> {
    if fragments == [] then []
    else
      var f := fragments[0];
      (if f.length > 0 && f.w / f.length as real > 0.0 then [f.w / f.length as real] else []) + CharWidths(fragments[1..])
  }

  ghost predicate Ascending(s: seq<real>) {
    forall i, j | 0 <= i < j < |s| :: s[i] <= s[j]
  }

  function Insert(x: real, s: seq<real>): seq<real> {
    if s == [] then [x] else if x <= s[0] then [x] + s else [s[0]] + Insert(x, s[1..])
  }

  function Sorted(s: seq<real>): seq<real> {
    if s == [] then [] else Insert(s[0], Sorted(s[1..]))
  }

  lemma ConsMultiset(x: real, s: seq<real>)
    ensures multiset([x] + s) == multiset{x} + multiset(s)
  {
    assert multiset([x]) == multiset{x};
  }

  lemma {:induction false} InsertKeeps(x: real, s: seq<real>)
    ensures multiset(Insert(x, s)) == multiset(s) + multiset{x} && |Insert(x, s)| == |s| + 1
  {
    if s == [] {
      assert Insert(x, s) == [x];
    } else if x <= s[0] {
      assert Insert(x, s) == [x] + s;
      ConsMultiset(x, s);
    } else {
      InsertKeeps(x, s[1..]);
      assert s == [s[0]] + s[1..] && Insert(x, s) == [s[0]] + Insert(x, s[1..]);
      ConsMultiset(s[0], s[1..]);
      ConsMultiset(s[0], Insert(x, s[1..]));
    }
  }

  lemma ConsAscends(x: real, s: seq<real>)
    requires Ascending(s) && forall y | y in s :: x <= y
    ensures Ascending([x] + s)
  {
    assert forall i | 0 <= i < |s| :: s[i] in s;
  }

  lemma TailAscends(s: seq<real>)
    requires Ascending(s) && s != []
    ensures Ascending(s[1..]) && forall y | y in s :: s[0] <= y
  {
  }

  lemma {:induction false} InsertAscends(x: real, s: seq<real>)
    requires Ascending(s)
    ensures Ascending(Insert(x, s)) && forall y | y in Insert(x, s) :: y == x || y in s
  {
    if s != [] {
      TailAscends(s);
      hide Ascending;
      if x <= s[0] {
        ConsAscends(x, s);
      } else {
        InsertAscends(x, s[1..]);
        ConsAscends(s[0], Insert(x, s[1..]));
      }
    }
  }

  lemma {:induction false} SortedSorts(s: seq<real>)
    ensures Ascending(Sorted(s)) && multiset(Sorted(s)) == multiset(s) && |Sorted(s)| == |s|
  {
    if s != [] {
      SortedSorts(s[1..]);
      InsertKeeps(s[0], Sorted(s[1..]));
      InsertAscends(s[0], Sorted(s[1..]));
      hide Insert, Ascending;
      ConsMultiset(s[0], s[1..]);
      assert s == [s[0]] + s[1..];
    }
  }

  function MedianCharWidth(fragments: seq<Fragment>): real {
    var widths := Sorted(CharWidths(fragments));
    if |widths| > 0 then widths[|widths| / 2] else 5.0
  }

  function Step(fragments: seq<Fragment>): (step: real)
    ensures step >= 0.75
  {
    var half := MedianCharWidth(fragments) / 2.0;
    if half < 0.75 then 0.75 else half
  }

  /** The step is half the middle character width, the widths in ascending order, but never less than 0.75; without
      widths it is 2.5. */
  lemma StepIsHalfTheMiddle(fragments: seq<Fragment>) returns (widths: seq<real>)
    ensures Ascending(widths) && multiset(widths) == multiset(CharWidths(fragments)) && |widths| == |CharWidths(fragments)|
    ensures widths == [] ==> Step(fragments) == 2.5
    ensures widths != [] ==>
      Step(fragments) == if widths[|widths| / 2] / 2.0 < 0.75 then 0.75 else widths[|widths| / 2] / 2.0
  {
    widths := Sorted(CharWidths(fragments));
    SortedSorts(CharWidths(fragments));
  }

  /** The widths are those of the fragments with text and a positive width, per character. */
  lemma {:induction false} CharWidthsMeaning(fragments: seq<Fragment>)
    ensures forall w :: w in CharWidths(fragments) <==>
      w > 0.0 && exists f :: f in fragments && f.length > 0 && f.w / f.length as real == w
  {
    if fragments != [] {
      CharWidthsMeaning(fragments[1..]);
      assert fragments == [fragments[0]] + fragments[1..];
    }
  }

  // ---------- the path ----------

  /** How far along the path its `i`th point is. */
  function Walked(points: seq<Point>, dist: Distance, i: nat): real
    requires i < |points|
  {
    if i == 0 then 0.0 else Walked(points, dist, i - 1) + dist(points[i - 1], points[i])
  }

  function Length(points: seq<Point>, dist: Distance): real
    requires points != []
  {
    Walked(points, dist, |points| - 1)
  }

  /** The length of a path is that of its segments. */
  lemma {:induction false} LengthAddsUp(points: seq<Point>, dist: Distance, next: Point)
    requires points != []
    ensures Length([next], dist) == 0.0
    ensures Length(points + [next], dist) == Length(points, dist) + dist(points[|points| - 1], next)
  {
    WalkedPrefix(points, [next], dist, |points| - 1);
  }

  lemma {:induction false} WalkedPrefix(points: seq<Point>, more: seq<Point>, dist: Distance, i: nat)
    requires i < |points|
    ensures Walked(points + more, dist, i) == Walked(points, dist, i)
  {
    if i > 0 {
      WalkedPrefix(points, more, dist, i - 1);
    }
  }

  function Between(a: Point, b: Point, t: real): Point {
    Point(a.x + (b.x - a.x) * t, a.y + (b.y - a.y) * t)
  }

  /** The segment that first gets this far. */
  function SegmentAt(points: seq<Point>, dist: Distance, d: real, i: nat): (segment: nat)
    requires i + 1 < |points| && d <= Length(points, dist)
    ensures i <= segment && segment + 1 < |points| && d <= Walked(points, dist, segment + 1)
    ensures segment == i || Walked(points, dist, segment) < d
    decreases |points| - i
  {
    if d <= Walked(points, dist, i + 1) || i + 2 == |points| then i else SegmentAt(points, dist, d, i + 1)
  }

  /** The point this far along the path. */
  function PathAt(points: seq<Point>, dist: Distance, d: real): Point
    requires |points| > 1 && NonNegative(dist) && 0.0 < d <= Length(points, dist)
  {
    var i := SegmentAt(points, dist, d, 0);
    assert dist(points[i], points[i + 1]) > 0.0;
    Between(points[i], points[i + 1], (d - Walked(points, dist, i)) / dist(points[i], points[i + 1]))
  }

  /** It lies on a segment of positive length, past its start and not past its end, and its distance along
      the path is the one asked for. */
  lemma PathAtMeaning(points: seq<Point>, dist: Distance, d: real)
    requires |points| > 1 && NonNegative(dist) && 0.0 < d <= Length(points, dist)
    ensures
      var i := SegmentAt(points, dist, d, 0);
      var len := dist(points[i], points[i + 1]);
      && len > 0.0
      && var t := (d - Walked(points, dist, i)) / len;
         && 0.0 < t <= 1.0 && Walked(points, dist, i) + t * len == d
         && PathAt(points, dist, d) ==
              Point(points[i].x + (points[i + 1].x - points[i].x) * t, points[i].y + (points[i + 1].y - points[i].y) * t)
  {
    var i := SegmentAt(points, dist, d, 0);
    var t := (d - Walked(points, dist, i)) / dist(points[i], points[i + 1]);
    Share(d - Walked(points, dist, i), dist(points[i], points[i + 1]));
    BetweenIs(points[i], points[i + 1], t);
    hide Between;
  }

  lemma BetweenIs(a: Point, b: Point, t: real)
    ensures Between(a, b, t) == Point(a.x + (b.x - a.x) * t, a.y + (b.y - a.y) * t)
  {
  }

  lemma Share(part: real, whole: real)
    requires 0.0 < part <= whole
    ensures 0.0 < part / whole <= 1.0 && part / whole * whole == part
  {
  }

  lemma {:induction false} WalkedGrows(points: seq<Point>, dist: Distance, i: nat, j: nat)
    requires i <= j < |points| && NonNegative(dist)
    ensures Walked(points, dist, i) <= Walked(points, dist, j)
  {
    if i < j {
      WalkedGrows(points, dist, i, j - 1);
    }
  }

  /** Only one segment spans a distance. */
  lemma SegmentIs(points: seq<Point>, dist: Distance, d: real, i: nat)
    requires i + 1 < |points| && NonNegative(dist)
    requires 0.0 < d && Walked(points, dist, i) < d <= Walked(points, dist, i + 1)
    ensures d <= Length(points, dist) && SegmentAt(points, dist, d, 0) == i
  {
    WalkedGrows(points, dist, i + 1, |points| - 1);
    var j := SegmentAt(points, dist, d, 0);
    if j < i {
      WalkedGrows(points, dist, j + 1, i);
    } else if i < j {
      WalkedGrows(points, dist, i + 1, j);
    }
  }

  // ---------- the samples ----------

  /** How far along the path sample `k` is. */
  function Along(k: int, step: real): real {
    k as real * step
  }

  lemma AlongNext(k: int, step: real)
    ensures Along(k + 1, step) == Along(k, step) + step
    ensures Along(0, step) == 0.0 && Along(1, step) == step
  {
  }

  /** How many whole steps fit in the path. */
  function Fits(length: real, step: real): (n: nat)
    requires length >= 0.0 && step > 0.0
  {
    QuotientNonNegative(length, step);
    (length / step).Floor
  }

  lemma QuotientNonNegative(length: real, step: real)
    requires length >= 0.0 && step > 0.0
    ensures length / step >= 0.0 && length / step * step == length
  {
  }

  lemma FitsMeans(length: real, step: real, k: nat)
    requires length >= 0.0 && step > 0.0
    ensures Along(k, step) <= length <==> k <= Fits(length, step)
  {
    QuotientNonNegative(length, step);
    AtMost(k as real, length / step, step);
  }

  lemma AtMost(x: real, y: real, step: real)
    requires step > 0.0
    ensures x * step <= y * step <==> x <= y
  {
    if x < y {
      assert (y - x) * step > 0.0;
    } else if y < x {
      assert (x - y) * step > 0.0;
    }
  }

  /** The first `n + 1` samples: the start of the path, and then one at every step. */
  ghost predicate EvenlySpaced(sampled: seq<Point>, n: nat, points: seq<Point>, dist: Distance, step: real)
    requires |points| > 1 && NonNegative(dist) && step > 0.0
  {
    && |sampled| > n && sampled[0] == points[0]
    && forall k | 1 <= k <= n :: IsSample(sampled[k], k, points, dist, step)
  }

  ghost predicate IsSample(p: Point, k: int, points: seq<Point>, dist: Distance, step: real)
    requires |points| > 1 && NonNegative(dist)
  {
    0.0 < Along(k, step) <= Length(points, dist) && p == PathAt(points, dist, Along(k, step))
  }

  lemma OneMore(sampled: seq<Point>, p: Point, points: seq<Point>, dist: Distance, step: real)
    requires |points| > 1 && NonNegative(dist) && step > 0.0
    requires sampled != [] && EvenlySpaced(sampled, |sampled| - 1, points, dist, step) && IsSample(p, |sampled|, points, dist, step)
    ensures EvenlySpaced(sampled + [p], |sampled|, points, dist, step)
  {
    hide IsSample;
    var more := sampled + [p];
    forall k | 1 <= k <= |sampled| ensures IsSample(more[k], k, points, dist, step) {
      if k < |sampled| {
        assert more[k] == sampled[k];
      }
    }
  }

  lemma OnlyStart(points: seq<Point>, dist: Distance, step: real)
    requires |points| > 1 && NonNegative(dist) && step > 0.0
    ensures EvenlySpaced([points[0]], 0, points, dist, step)
  {
  }

  /** Samples added past the spaced ones leave those as they are. */
  lemma StillSpaced(sampled: seq<Point>, p: Point, points: seq<Point>, dist: Distance, step: real)
    requires |points| > 1 && NonNegative(dist) && step > 0.0
    requires sampled != [] && EvenlySpaced(sampled, |sampled| - 1, points, dist, step)
    ensures EvenlySpaced(sampled + [p], |sampled| - 1, points, dist, step)
  {
    hide IsSample;
  }

  /** A point interpolated on the segment that spans a whole number of steps is the sample for it. */
  lemma OnSegment(points: seq<Point>, dist: Distance, step: real, i: nat, k: nat)
    requires i + 1 < |points| && NonNegative(dist) && step > 0.0 && k > 0
    requires Walked(points, dist, i) < Along(k, step) <= Walked(points, dist, i) + dist(points[i], points[i + 1])
    ensures dist(points[i], points[i + 1]) > 0.0
    ensures var t := (Along(k, step) - Walked(points, dist, i)) / dist(points[i], points[i + 1]);
            IsSample(Between(points[i], points[i + 1], t), k, points, dist, step)
    ensures k <= Fits(Length(points, dist), step)
  {
    hide Along;
    WalkedGrows(points, dist, 0, i);
    WalkedGrows(points, dist, i + 1, |points| - 1);
    SegmentIs(points, dist, Along(k, step), i);
    FitsMeans(Length(points, dist), step, k);
  }

  method TotalLength(points: seq<Point>, dist: Distance) returns (total: real)
    requires |points| > 1 && NonNegative(dist)
    ensures total == Length(points, dist) >= 0.0
  {
    total := 0.0;
    for i := 1 to |points|
      invariant total == Walked(points, dist, i - 1) >= 0.0
    {
      total := total + dist(points[i - 1], points[i]);
    }
  }

  /** The nested loops: as many samples as whole steps fit in the path, and the start. */
  method EvenSamples(points: seq<Point>, dist: Distance, step: real) returns (sampled: seq<Point>)
    requires |points| > 1 && NonNegative(dist) && step > 0.0 && Length(points, dist) >= 0.0
    ensures |sampled| == Fits(Length(points, dist), step) + 1
    ensures EvenlySpaced(sampled, |sampled| - 1, points, dist, step)
  {
    hide Along, IsSample, EvenlySpaced, Fits, PathAt, SegmentAt;
    sampled := [points[0]];
    assert EvenlySpaced(sampled, 0, points, dist, step) by {
      OnlyStart(points, dist, step);
    }
    var nextAt, walked := step, 0.0;
    AlongNext(0, step);
    for i := 1 to |points|
      invariant walked == Walked(points, dist, i - 1) < nextAt == Along(|sampled|, step)
      invariant |sampled| >= 1 && EvenlySpaced(sampled, |sampled| - 1, points, dist, step)
      invariant Along(|sampled| - 1, step) <= walked
    {
      var a, b := points[i - 1], points[i];
      var len := dist(a, b);
      if len == 0.0 {
        continue;
      }
      while walked + len >= nextAt
        invariant walked < nextAt == Along(|sampled|, step)
        invariant |sampled| >= 1 && EvenlySpaced(sampled, |sampled| - 1, points, dist, step)
        invariant Along(|sampled| - 1, step) <= walked + len
        decreases Fits(Length(points, dist), step) - |sampled|
      {
        OnSegment(points, dist, step, i - 1, |sampled|);
        var t := (nextAt - walked) / len;
        var p := Between(a, b, t);
        OneMore(sampled, p, points, dist, step);
        AlongNext(|sampled|, step);
        sampled := sampled + [p];
        nextAt := nextAt + step;
      }
      walked := walked + len;
    }
    FitsMeans(Length(points, dist), step, |sampled|);
    FitsMeans(Length(points, dist), step, |sampled| - 1);
  }

  method SamplePathForSynctex(points: seq<Point>, fragments: seq<Fragment>, dist: Distance) returns (sampled: seq<Point>)
    requires NonNegative(dist)
    ensures |points| <= 1 ==> sampled == points
    ensures |points| > 1 ==> Length(points, dist) >= 0.0
    ensures |points| > 1 && Length(points, dist) == 0.0 ==> sampled == [points[0]]
    ensures |points| > 1 && Length(points, dist) > 0.0 ==>
      var n := Fits(Length(points, dist), Step(fragments));
      && EvenlySpaced(sampled, n, points, dist, Step(fragments))
      && (dist(points[|points| - 1], sampled[n]) > 0.5 ==> sampled[n + 1..] == [points[|points| - 1]])
      && (dist(points[|points| - 1], sampled[n]) <= 0.5 ==> sampled[n + 1..] == [])
  {
    if |points| <= 1 {
      return points;
    }
    var total := TotalLength(points, dist);
    if total == 0.0 {
      return [points[0]];
    }
    var step := Step(fragments);
    sampled := EvenSamples(points, dist, step);
    var last, prev := points[|points| - 1], sampled[|sampled| - 1];
    if dist(last, prev) > 0.5 {
      StillSpaced(sampled, last, points, dist, step);
      sampled := sampled + [last];
    }
  }
}
