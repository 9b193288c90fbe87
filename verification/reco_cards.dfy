/** The recommendation cards of the desktop app (app_desktop/src/components/RecoCards.tsx):
    the sparkline drawn from a symbol's recent closes in a 180 x 40 box, and the
    reasons listed under the score. `fixed1` stands for `toFixed(1)`. */
module RecoCards {
  import opened Wrappers
  import opened Text
  import opened RealOrder

  const Width := 180.0
  const Height := 40.0

  function SeqMin(xs: seq<real>): (m: real)
    requires |xs| > 0
    ensures m in xs && forall i :: 0 <= i < |xs| ==> m <= xs[i]
  {
    if |xs| == 1 then xs[0]
    else var rest := SeqMin(xs[1..]); if xs[0] <= rest then xs[0] else rest
  }

  function SeqMax(xs: seq<real>): (m: real)
    requires |xs| > 0
    ensures m in xs && forall i :: 0 <= i < |xs| ==> xs[i] <= m
  {
    if |xs| == 1 then xs[0]
    else var rest := SeqMax(xs[1..]); if xs[0] >= rest then xs[0] else rest
  }

  /** The horizontal position of point `idx` of `n`, spread over the width. */
  function X(idx: nat, n: nat): (x: real)
    requires idx < n
    ensures 0.0 <= x <= Width
    ensures idx == 0 ==> x == 0.0
    ensures n >= 2 && idx == n - 1 ==> x == Width
  {
    var span := if n - 1 > 1 then (n - 1) as real else 1.0;
    DivMonotone(idx as real, span, span);
    assert span / span == 1.0;
    assert n >= 2 && idx == n - 1 ==> idx as real == span;
    idx as real / span * Width
  }

  /** The vertical position of `v` between `lo` and `hi`: the top is 0, so higher closes
      sit higher; a flat series is drawn along the bottom. */
  function Y(v: real, lo: real, hi: real): (y: real)
    requires lo <= v <= hi
    ensures 0.0 <= y <= Height
    ensures v == lo ==> y == Height
    ensures v == hi && lo < hi ==> y == 0.0
    ensures lo == hi ==> y == Height
  {
    if hi == lo then Height
    else
      DivMonotone(0.0, v - lo, hi - lo);
      DivMonotone(v - lo, hi - lo, hi - lo);
      DivSelf(hi - lo);
      Height - (v - lo) / (hi - lo) * Height
  }

  /** The drawn coordinates of every close. */
  function Coords(points: seq<real>): (r: seq<(real, real)>)
    requires |points| > 0
    ensures |r| == |points|
    ensures forall k :: 0 <= k < |r| ==> r[k] == (X(k, |points|), Y(points[k], SeqMin(points), SeqMax(points)))
  {
    var lo := SeqMin(points);
    var hi := SeqMax(points);
    seq(|points|, k requires 0 <= k < |points| => (X(k, |points|), Y(points[k], lo, hi)))
  }

  /** The drawing keeps the order of the data: later points lie further right, and a
      higher close is never drawn lower than a smaller one. */
  lemma CoordsPreserveOrder(points: seq<real>, j: nat, k: nat)
    requires j < k < |points|
    ensures Coords(points)[j].0 < Coords(points)[k].0
    ensures points[j] <= points[k] ==> Coords(points)[j].1 >= Coords(points)[k].1
  {
    XIncreasing(j, k, |points|);
    if points[j] <= points[k] {
      YAntitone(points[j], points[k], SeqMin(points), SeqMax(points));
    }
  }

  lemma XIncreasing(j: nat, k: nat, n: nat)
    requires j < k < n
    ensures X(j, n) < X(k, n)
  {
    var span := if n - 1 > 1 then (n - 1) as real else 1.0;
    DivMonotone(j as real, k as real, span);
  }

  lemma YAntitone(a: real, b: real, lo: real, hi: real)
    requires lo <= a <= b <= hi
    ensures Y(a, lo, hi) >= Y(b, lo, hi)
  {
    if lo < hi {
      DivMonotone(a - lo, b - lo, hi - lo);
    }
  }

  /** One path command: a move for the first point, a line for the others. */
  function Segment(idx: nat, xy: (real, real), fixed1: real -> string): (r: string)
    ensures |r| > 0 && r[0] == (if idx == 0 then 'M' else 'L')
    ensures r[1..] == fixed1(xy.0) + "," + fixed1(xy.1)
  {
    (if idx == 0 then "M" else "L") + fixed1(xy.0) + "," + fixed1(xy.1)
  }

  /** The path commands of the drawn points, in order. */
  function Segments(xy: seq<(real, real)>, fixed1: real -> string): (r: seq<string>)
    ensures |r| == |xy|
    ensures forall k :: 0 <= k < |r| ==> |r[k]| > 0 && r[k][0] == (if k == 0 then 'M' else 'L')
    ensures forall k :: 0 <= k < |r| ==> r[k] == Segment(k, xy[k], fixed1)
  {
    seq(|xy|, k requires 0 <= k < |xy| => Segment(k, xy[k], fixed1))
  }

  /** The `d` attribute of the sparkline: empty until a series arrives. */
  function SparkPath(spark: Option<seq<real>>, fixed1: real -> string): (r: string)
    ensures spark.None? || |spark.value| == 0 ==> r == ""
    ensures spark.Some? && |spark.value| > 0 ==> StartsWith(r, Segment(0, Coords(spark.value)[0], fixed1)) && r[0] == 'M'
  {
    if spark.None? || |spark.value| == 0 then "" else Join(Segments(Coords(spark.value), fixed1), " ")
  }

  /** The path is the segments of the drawn points, in order, separated by single
      spaces: splitting it at the spaces gives them back, provided the number
      rendering never yields a space (`toFixed` does not). */
  lemma SparkPathSegments(points: seq<real>, fixed1: real -> string)
    requires |points| > 0
    requires forall v :: NoSpace(fixed1(v))
    ensures Split(SparkPath(Some(points), fixed1), ' ') == Segments(Coords(points), fixed1)
  {
    var xy := Coords(points);
    var segs := Segments(xy, fixed1);
    forall k | 0 <= k < |segs| ensures ' ' !in segs[k] {
      var p := xy[k];
      assert NoSpace(fixed1(p.0)) && NoSpace(fixed1(p.1));
      SegmentHasNoSpace(k, p, fixed1);
    }
    SplitJoin(segs, ' ');
    assert SparkPath(Some(points), fixed1) == Join(segs, [' ']);
  }

  predicate NoSpace(s: string) {
    ' ' !in s
  }

  lemma SegmentHasNoSpace(idx: nat, xy: (real, real), fixed1: real -> string)
    requires NoSpace(fixed1(xy.0)) && NoSpace(fixed1(xy.1))
    ensures NoSpace(Segment(idx, xy, fixed1))
  {
    var r := Segment(idx, xy, fixed1);
    assert r == [r[0]] + (fixed1(xy.0) + ("," + fixed1(xy.1)));
  }

  /** A single close is drawn as one move to the bottom-left corner. */
  lemma SinglePointPath(v: real, fixed1: real -> string)
    ensures SparkPath(Some([v]), fixed1) == "M" + fixed1(0.0) + "," + fixed1(Height)
  {
    assert Coords([v])[0] == (0.0, Height);
  }

  /** `reasons.slice(0, 3)`: the first three reasons at most. */
  function ShownReasons(reasons: seq<string>): (r: seq<string>)
    ensures |r| == if |reasons| < 3 then |reasons| else 3
    ensures r == reasons[..|r|]
  {
    PyTake(reasons, 3)
  }
}
