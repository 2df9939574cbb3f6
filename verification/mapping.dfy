/** Conversion between image coordinates (line, sample) and ground
    coordinates (longitude, latitude): the approximate affine map, the exact
    map interpolated on the geolocation grid, the shapes numpy gives the
    results, the one-pass correction of the inverse mapping, and the
    heading of the line direction. */
module LonLatMapping {
  import opened Common
  import opened AffineMap
  import opened Geolocation

  /** `RectBivariateSpline(lines, pixels, values, kx=1, ky=1).ev(line, sample)`:
      the interpolation of one table of the grid. */
  type Interp = (seq<real>, seq<real>, seq<seq<real>>, real, real) -> real

  /** `haversine(lon1, lat1, lon2, lat2)`, its bearing part. */
  type Bearing = (real, real, real, real) -> real

  /** A coordinate argument: a Python scalar or a one-dimensional array. */
  datatype Arg = Scalar(x: real) | Array(xs: seq<real>)

  /** The result of a conversion: a scalar, an array, or a 2-D array
      (one row per line). */
  datatype Shaped<T> = One(value: T) | Many(values: seq<T>) | Table(rows: seq<seq<T>>)

  /** Where the values come from: the approximate transform, or the
      interpolation of a geolocation grid. */
  datatype Source = Approx(t: Affine) | Exact(interp: Interp, g: GeoGrid)

  function Values(a: Arg): (r: seq<real>)
    ensures a.Scalar? ==> r == [a.x]
    ensures a.Array? ==> r == a.xs
  {
    match a
    case Scalar(x) => [x]
    case Array(xs) => xs
  }

  /** `lines + d`, element-wise. */
  function Shift(a: Arg, d: real): (r: Arg)
    ensures r.Scalar? <==> a.Scalar?
    ensures |Values(r)| == |Values(a)|
    ensures forall k :: 0 <= k < |Values(r)| ==> Values(r)[k] == Values(a)[k] + d
  {
    match a
    case Scalar(x) => Scalar(x + d)
    case Array(xs) => Array(seq(|xs|, k requires 0 <= k < |xs| => xs[k] + d))
  }

  /** The raw (longitude, latitude) at one (line, sample). */
  function At(src: Source, l: real, s: real): (real, real)
  {
    match src
    case Approx(t) => t.Apply(l, s)
    case Exact(interp, g) => (interp(g.lines, g.pixels, g.lon, l, s), interp(g.lines, g.pixels, g.lat, l, s))
  }

  /** `to_lon180` applied to the longitude when the flag is set. */
  function Forward(src: Source, flag: bool, toLon180: real -> real, l: real, s: real): (p: (real, real))
    ensures p.1 == At(src, l, s).1
    ensures !flag ==> p == At(src, l, s)
    ensures flag ==> p.0 == toLon180(At(src, l, s).0)
  {
    var raw := At(src, l, s);
    if flag then (toLon180(raw.0), raw.1) else raw
  }

  /** numpy broadcasting of two one-dimensional operands: equal lengths pair
      up, a single value pairs with every value of the other, any other
      pair of lengths is a ValueError. */
  function Broadcast(x: Arg, y: Arg): (r: Result<seq<(real, real)>>)
    ensures var n := |Values(x)|; var m := |Values(y)|;
            r.Success? <==> n == m || n == 1 || m == 1
    ensures r.Failure? ==> r.error.ValueError?
    ensures var n := |Values(x)|; var m := |Values(y)|;
            r.Success? ==>
              |r.value| == (if n == 1 then m else n) &&
              forall k :: 0 <= k < |r.value| ==>
                r.value[k] == (Values(x)[if n == 1 then 0 else k], Values(y)[if m == 1 then 0 else k])
  {
    var xv := Values(x);
    var yv := Values(y);
    if |xv| == |yv| then Success(seq(|xv|, k requires 0 <= k < |xv| => (xv[k], yv[k])))
    else if |xv| == 1 then Success(seq(|yv|, k requires 0 <= k < |yv| => (xv[0], yv[k])))
    else if |yv| == 1 then Success(seq(|xv|, k requires 0 <= k < |xv| => (xv[k], yv[0])))
    else Failure(ValueError("operands could not be broadcast together"))
  }

  function Size<T>(v: Shaped<T>): nat
  {
    match v
    case One(_) => 1
    case Many(vs) => |vs|
    case Table(rows) => if |rows| == 0 then 0 else |rows| * |rows[0]|
  }

  /** `.item()`: the single element of a result of size 1; a ValueError
      otherwise. */
  function Item<T>(v: Shaped<T>): (r: Result<T>)
    ensures r.Success? <==> Size(v) == 1
  {
    match v
    case One(x) => Success(x)
    case Many(vs) => if |vs| == 1 then Success(vs[0]) else Failure(ValueError("can only convert an array of size 1 to a Python scalar"))
    case Table(rows) =>
      if |rows| == 1 && |rows[0]| == 1 then Success(rows[0][0])
      else
        assert Size(v) != 1 by {
          if |rows| > 1 && |rows[0]| > 0 {
            assert |rows| * |rows[0]| >= |rows|;
          }
        }
        Failure(ValueError("can only convert an array of size 1 to a Python scalar"))
  }

  /** `f` at every (line, sample) pair of the outer product. */
  function GridOf<T>(f: (real, real) -> T, lv: seq<real>, sv: seq<real>): (r: seq<seq<T>>)
    ensures |r| == |lv|
    ensures forall i :: 0 <= i < |lv| ==> |r[i]| == |sv| && forall j :: 0 <= j < |sv| ==> r[i][j] == f(lv[i], sv[j])
  {
    seq(|lv|, i requires 0 <= i < |lv| => seq(|sv|, j requires 0 <= j < |sv| => f(lv[i], sv[j])))
  }

  /** `f` at every pair. */
  function MapPairs<T>(f: (real, real) -> T, pairs: seq<(real, real)>): (r: seq<T>)
    ensures |r| == |pairs| && forall k :: 0 <= k < |pairs| ==> r[k] == f(pairs[k].0, pairs[k].1)
  {
    seq(|pairs|, k requires 0 <= k < |pairs| => f(pairs[k].0, pairs[k].1))
  }

  /** Every value at least the one before it: what `np.diff(x) >= 0` asks
      of a spline argument evaluated on a grid. */
  predicate NonDecreasing(xs: seq<real>)
  {
    forall k :: 0 < k < |xs| ==> xs[k - 1] <= xs[k]
  }

  /** The error of a spline evaluated on a grid of unsorted arguments. */
  function Unsorted(lv: seq<real>, sv: seq<real>): (e: Error)
    ensures e.ValueError?
  {
    if !NonDecreasing(lv) then ValueError("x must be strictly increasing when `grid` is True")
    else ValueError("y must be strictly increasing when `grid` is True")
  }

  /** The values before the scalar conversion: on a grid the outer product
      of lines and samples, otherwise a scalar for two scalars and the
      broadcast pairs for anything else. `ordered` says that the grid is
      evaluated by the spline, which gives an empty table when either
      argument is empty and otherwise refuses unsorted lines or samples. */
  function Raw<T>(f: (real, real) -> T, ordered: bool, lines: Arg, samples: Arg, toGrid: bool): Result<Shaped<T>>
  {
    if toGrid then
      if ordered && |Values(lines)| > 0 && |Values(samples)| > 0 &&
         !(NonDecreasing(Values(lines)) && NonDecreasing(Values(samples))) then
        Failure(Unsorted(Values(lines), Values(samples)))
      else Success(Table(GridOf(f, Values(lines), Values(samples))))
    else if lines.Scalar? && samples.Scalar? then Success(One(f(lines.x, samples.x)))
    else
      var pairs :- Broadcast(lines, samples);
      Success(Many(MapPairs(f, pairs)))
  }

  /** The shape logic of `coords2ll`, for any per-point function `f`: the
      raw values, made a scalar through `.item()` when `lines` is a scalar. */
  function Lift<T>(f: (real, real) -> T, ordered: bool, lines: Arg, samples: Arg, toGrid: bool): (r: Result<Shaped<T>>)
  {
    var raw :- Raw(f, ordered, lines, samples, toGrid);
    if lines.Scalar? && !raw.One? then
      var x :- Item(raw);
      Success(One(x))
    else Success(raw)
  }

  /** The per-point map of `coords2ll`. */
  function PointMap(src: Source, flag: bool, toLon180: real -> real): (real, real) -> (real, real)
  {
    (l, s) => Forward(src, flag, toLon180, l, s)
  }

  /** `f` with its line argument moved by `d`. */
  function ShiftFn<T>(f: (real, real) -> T, d: real): (real, real) -> T
  {
    (l, s) => f(l + d, s)
  }

  /** `coords2ll(lines, samples, to_grid)`: (longitude, latitude) pairs. */
  function LonLatSpec(src: Source, flag: bool, toLon180: real -> real, lines: Arg, samples: Arg, toGrid: bool): Result<Shaped<(real, real)>>
  {
    Lift(PointMap(src, flag, toLon180), src.Exact?, lines, samples, toGrid)
  }

  /** On a grid, arrays give a 2-D result of shape (len(lines),
      len(samples)) holding the value at every (line, sample) pair; the
      exact map refuses, with a ValueError, lines or samples out of order,
      unless one of them is empty. */
  lemma GridShape(src: Source, flag: bool, toLon180: real -> real, lines: seq<real>, samples: seq<real>)
    ensures var r := LonLatSpec(src, flag, toLon180, Array(lines), Array(samples), true);
            r.Success? <==>
              src.Approx? || |lines| == 0 || |samples| == 0 || (NonDecreasing(lines) && NonDecreasing(samples))
    ensures var r := LonLatSpec(src, flag, toLon180, Array(lines), Array(samples), true);
            r.Failure? ==> r.error.ValueError?
    ensures var r := LonLatSpec(src, flag, toLon180, Array(lines), Array(samples), true);
            r.Success? ==>
              r.value.Table? && |r.value.rows| == |lines| &&
              forall i :: 0 <= i < |lines| ==>
                |r.value.rows[i]| == |samples| &&
                forall j :: 0 <= j < |samples| ==> r.value.rows[i][j] == Forward(src, flag, toLon180, lines[i], samples[j])
  {
  }

  /** Scalar line and sample give a scalar result, on a grid or not. */
  lemma ScalarInScalarOut(src: Source, flag: bool, toLon180: real -> real, l: real, s: real, toGrid: bool)
    ensures LonLatSpec(src, flag, toLon180, Scalar(l), Scalar(s), toGrid) == Success(One(Forward(src, flag, toLon180, l, s)))
  {
    var f := PointMap(src, flag, toLon180);
    if toGrid {
      var raw := Table(GridOf(f, [l], [s]));
      assert Item(raw) == Success(f(l, s));
    }
  }

  /** A scalar line with an array of samples of any length but one cannot
      be made a scalar: a ValueError. */
  lemma ScalarLineArraySamples(src: Source, flag: bool, toLon180: real -> real, l: real, samples: seq<real>, toGrid: bool)
    requires |samples| != 1
    ensures LonLatSpec(src, flag, toLon180, Scalar(l), Array(samples), toGrid).Failure?
    ensures LonLatSpec(src, flag, toLon180, Scalar(l), Array(samples), toGrid).error.ValueError?
  {
  }

  /** Off the grid, arrays of one length give the values pair by pair, and
      arrays of two lengths that do not broadcast are a ValueError. */
  lemma PointwiseArrays(src: Source, flag: bool, toLon180: real -> real, lines: seq<real>, samples: seq<real>)
    ensures var r := LonLatSpec(src, flag, toLon180, Array(lines), Array(samples), false);
            |lines| == |samples| ==>
              r.Success? && r.value.Many? && |r.value.values| == |lines| &&
              forall k :: 0 <= k < |lines| ==> r.value.values[k] == Forward(src, flag, toLon180, lines[k], samples[k])
    ensures var r := LonLatSpec(src, flag, toLon180, Array(lines), Array(samples), false);
            |lines| != |samples| && |lines| != 1 && |samples| != 1 ==> r.Failure? && r.error.ValueError?
  {
  }

  /** One point of `ll2coords`: the approximate inverse, the exact forward
      map of that estimate, and one correction by the error the round trip
      shows. */
  function CorrectPoint(inv: Affine, fwd: Source, flag: bool, toLon180: real -> real, lon: real, lat: real): (real, real)
  {
    var approx := inv.Apply(lon, lat);
    var identity := Forward(fwd, flag, toLon180, approx.0, approx.1);
    var back := inv.Apply(identity.0, identity.1);
    (approx.0 - (back.0 - approx.0), approx.1 - (back.1 - approx.1))
  }

  /** `ll2coords(lon, lat)`: a degenerate approximate transform cannot be
      inverted; otherwise the corrected (line, sample) at every broadcast
      pair, a scalar pair for scalar arguments. */
  function LonLatToCoordsSpec(t: Affine, fwd: Source, flag: bool, toLon180: real -> real, lon: Arg, lat: Arg): (r: Result<Shaped<(real, real)>>)
    ensures t.Det() == 0.0 ==> r == Failure(NotInvertible)
    ensures t.Det() != 0.0 ==>
              (r.Success? <==> (lon.Scalar? && lat.Scalar?) || Broadcast(lon, lat).Success?)
    ensures t.Det() != 0.0 && r.Failure? ==> r.error.ValueError?
    ensures t.Det() != 0.0 && lon.Scalar? && lat.Scalar? ==>
              r == Success(One(CorrectPoint(Invert(t).value, fwd, flag, toLon180, lon.x, lat.x)))
    ensures t.Det() != 0.0 && !(lon.Scalar? && lat.Scalar?) && Broadcast(lon, lat).Success? ==>
              var pairs := Broadcast(lon, lat).value;
              r.Success? && r.value.Many? && |r.value.values| == |pairs| &&
              forall k :: 0 <= k < |pairs| ==>
                r.value.values[k] == CorrectPoint(Invert(t).value, fwd, flag, toLon180, pairs[k].0, pairs[k].1)
  {
    var inv :- Invert(t);
    if lon.Scalar? && lat.Scalar? then Success(One(CorrectPoint(inv, fwd, flag, toLon180, lon.x, lat.x)))
    else
      var pairs :- Broadcast(lon, lat);
      Success(Many(seq(|pairs|, k requires 0 <= k < |pairs| =>
        CorrectPoint(inv, fwd, flag, toLon180, pairs[k].0, pairs[k].1))))
  }

  /** Where the exact map agrees with the approximate transform, the
      correction changes nothing: the result is the affine inverse. */
  lemma CorrectionOfAffine(t: Affine, fwd: Source, flag: bool, toLon180: real -> real, lon: real, lat: real)
    requires t.Det() != 0.0
    requires forall l: real, s: real :: Forward(fwd, flag, toLon180, l, s) == t.Apply(l, s)
    ensures Invert(t).Success?
    ensures CorrectPoint(Invert(t).value, fwd, flag, toLon180, lon, lat) == Invert(t).value.Apply(lon, lat)
  {
    var inv := Invert(t).value;
    var approx := inv.Apply(lon, lat);
    ApplyAfterInvert(t, lon, lat);
    assert Forward(fwd, flag, toLon180, approx.0, approx.1) == (lon, lat);
  }

  /** Where the exact map agrees with the approximate transform,
      `ll2coords` is the affine inverse at every broadcast pair. */
  lemma LonLatToCoordsOfAffine(t: Affine, fwd: Source, flag: bool, toLon180: real -> real, lon: Arg, lat: Arg)
    requires t.Det() != 0.0
    requires forall l: real, s: real :: Forward(fwd, flag, toLon180, l, s) == t.Apply(l, s)
    requires !(lon.Scalar? && lat.Scalar?) && Broadcast(lon, lat).Success?
    ensures Invert(t).Success?
    ensures var r := LonLatToCoordsSpec(t, fwd, flag, toLon180, lon, lat);
            var pairs := Broadcast(lon, lat).value;
            r.Success? && r.value.Many? && |r.value.values| == |pairs| &&
            forall k :: 0 <= k < |pairs| ==> r.value.values[k] == Invert(t).value.Apply(pairs[k].0, pairs[k].1)
  {
    var pairs := Broadcast(lon, lat).value;
    forall k | 0 <= k < |pairs|
      ensures CorrectPoint(Invert(t).value, fwd, flag, toLon180, pairs[k].0, pairs[k].1) == Invert(t).value.Apply(pairs[k].0, pairs[k].1)
    {
      CorrectionOfAffine(t, fwd, flag, toLon180, pairs[k].0, pairs[k].1);
    }
  }

  /** Where the exact map is the approximate transform shifted by a
      constant offset in image coordinates, the single correction is exact:
      mapping the result forward gives the requested point back. */
  lemma CorrectionOfShift(t: Affine, fwd: Source, flag: bool, toLon180: real -> real, dl: real, ds: real, lon: real, lat: real)
    requires t.Det() != 0.0
    requires forall l: real, s: real :: Forward(fwd, flag, toLon180, l, s) == t.Apply(l + dl, s + ds)
    ensures Invert(t).Success?
    ensures var p := CorrectPoint(Invert(t).value, fwd, flag, toLon180, lon, lat);
            Forward(fwd, flag, toLon180, p.0, p.1) == (lon, lat)
  {
    var inv := Invert(t).value;
    var approx := inv.Apply(lon, lat);
    var moved := t.Apply(approx.0 + dl, approx.1 + ds);
    assert Forward(fwd, flag, toLon180, approx.0, approx.1) == moved;
    InvertAfterApply(t, approx.0 + dl, approx.1 + ds);
    var p := CorrectPoint(inv, fwd, flag, toLon180, lon, lat);
    assert p == (approx.0 - dl, approx.1 - ds);
    assert Forward(fwd, flag, toLon180, p.0, p.1) == t.Apply(approx.0, approx.1);
    ApplyAfterInvert(t, lon, lat);
  }

  /** The heading at one (line, sample): the bearing from the point one line
      before to the point one line after. */
  function HeadingAt(src: Source, flag: bool, toLon180: real -> real, bearing: Bearing, l: real, s: real): real
  {
    var p1 := Forward(src, flag, toLon180, l - 1.0, s);
    var p2 := Forward(src, flag, toLon180, l + 1.0, s);
    bearing(p1.0, p1.1, p2.0, p2.1)
  }

  /** The per-point map of `coords2heading`. */
  function HeadingMap(src: Source, flag: bool, toLon180: real -> real, bearing: Bearing): (real, real) -> real
  {
    (l, s) => HeadingAt(src, flag, toLon180, bearing, l, s)
  }

  /** `coords2heading(lines, samples, to_grid)` */
  function HeadingSpec(src: Source, flag: bool, toLon180: real -> real, bearing: Bearing, lines: Arg, samples: Arg, toGrid: bool): Result<Shaped<real>>
  {
    Lift(HeadingMap(src, flag, toLon180, bearing), src.Exact?, lines, samples, toGrid)
  }

  /** With the approximate transform (and no longitude wrap) the heading is
      the bearing along the transform's line direction: the two points are
      `(2a, 2d)` apart whatever the (line, sample). */
  lemma ApproxHeading(t: Affine, toLon180: real -> real, bearing: Bearing, l: real, s: real)
    ensures var p1 := t.Apply(l - 1.0, s);
            HeadingAt(Approx(t), false, toLon180, bearing, l, s) == bearing(p1.0, p1.1, p1.0 + 2.0 * t.a, p1.1 + 2.0 * t.d)
  {
    assert t.a * (l + 1.0) == t.a * (l - 1.0) + 2.0 * t.a;
    assert t.d * (l + 1.0) == t.d * (l - 1.0) + 2.0 * t.d;
  }

  /** Two results of the same shape. */
  predicate SameShape<T, U>(a: Shaped<T>, b: Shaped<U>)
  {
    match (a, b)
    case (One(_), One(_)) => true
    case (Many(x), Many(y)) => |x| == |y|
    case (Table(x), Table(y)) => |x| == |y| && forall i :: 0 <= i < |x| ==> |x[i]| == |y[i]|
    case _ => false
  }

  /** `haversine` applied element-wise to two (longitude, latitude) results
      of one shape. */
  function Zip(a: Shaped<(real, real)>, b: Shaped<(real, real)>, bearing: Bearing): (r: Shaped<real>)
    requires SameShape(a, b)
    ensures SameShape(a, r)
    ensures a.One? ==> r == One(bearing(a.value.0, a.value.1, b.value.0, b.value.1))
    ensures a.Many? ==> forall k :: 0 <= k < |a.values| ==>
              r.values[k] == bearing(a.values[k].0, a.values[k].1, b.values[k].0, b.values[k].1)
    ensures a.Table? ==> forall i, j :: 0 <= i < |a.rows| && 0 <= j < |a.rows[i]| ==>
              r.rows[i][j] == bearing(a.rows[i][j].0, a.rows[i][j].1, b.rows[i][j].0, b.rows[i][j].1)
  {
    match (a, b)
    case (One(p), One(q)) => One(bearing(p.0, p.1, q.0, q.1))
    case (Many(x), Many(y)) => Many(seq(|x|, k requires 0 <= k < |x| => bearing(x[k].0, x[k].1, y[k].0, y[k].1)))
    case (Table(x), Table(y)) =>
      Table(seq(|x|, i requires 0 <= i < |x| =>
        seq(|x[i]|, j requires 0 <= j < |x[i]| => bearing(x[i][j].0, x[i][j].1, y[i][j].0, y[i][j].1))))
  }

  /** Broadcasting shifted lines shifts the first member of every pair. */
  lemma BroadcastShift(lines: Arg, samples: Arg, d: real)
    ensures Broadcast(Shift(lines, d), samples).Success? <==> Broadcast(lines, samples).Success?
    ensures Broadcast(lines, samples).Success? ==>
              var p := Broadcast(lines, samples).value;
              var q := Broadcast(Shift(lines, d), samples).value;
              |q| == |p| && forall k :: 0 <= k < |p| ==> q[k] == (p[k].0 + d, p[k].1)
  {
  }

  /** Moving every line by one amount keeps them in order, and out of it. */
  lemma ShiftKeepsOrder(lines: Arg, d: real)
    ensures NonDecreasing(Values(Shift(lines, d))) <==> NonDecreasing(Values(lines))
  {
    var lv := Values(lines);
    var lv' := Values(Shift(lines, d));
    if !NonDecreasing(lv) {
      var k :| 0 < k < |lv| && lv[k - 1] > lv[k];
      assert lv'[k - 1] > lv'[k];
    }
  }

  /** The raw values over shifted lines are those of the shifted function. */
  lemma RawShift<T>(f: (real, real) -> T, ordered: bool, lines: Arg, samples: Arg, toGrid: bool, d: real)
    ensures Raw(f, ordered, Shift(lines, d), samples, toGrid) == Raw(ShiftFn(f, d), ordered, lines, samples, toGrid)
  {
    var g := ShiftFn(f, d);
    var lv := Values(lines);
    var sv := Values(samples);
    var lv' := Values(Shift(lines, d));
    ShiftKeepsOrder(lines, d);
    if toGrid {
      var t1 := GridOf(f, lv', sv);
      var t2 := GridOf(g, lv, sv);
      forall i | 0 <= i < |lv|
        ensures t1[i] == t2[i]
      {
        assert lv'[i] == lv[i] + d;
      }
      assert t1 == t2;
    } else if !(lines.Scalar? && samples.Scalar?) {
      BroadcastShift(lines, samples, d);
      if Broadcast(lines, samples).Success? {
        var p := Broadcast(lines, samples).value;
        var q := Broadcast(Shift(lines, d), samples).value;
        var m1 := MapPairs(f, q);
        var m2 := MapPairs(g, p);
        forall k | 0 <= k < |p|
          ensures m1[k] == m2[k]
        {
          assert q[k] == (p[k].0 + d, p[k].1);
        }
        assert m1 == m2;
      }
    }
  }

  /** Lifting over shifted lines is lifting the shifted function. */
  lemma LiftShift<T>(f: (real, real) -> T, ordered: bool, lines: Arg, samples: Arg, toGrid: bool, d: real)
    ensures Lift(f, ordered, Shift(lines, d), samples, toGrid) == Lift(ShiftFn(f, d), ordered, lines, samples, toGrid)
  {
    RawShift(f, ordered, lines, samples, toGrid, d);
  }

  /** The raw values of a point-wise combination are the combination of the
      raw values. */
  lemma RawZip(f1: (real, real) -> (real, real), f2: (real, real) -> (real, real), h: (real, real) -> real,
               bearing: Bearing, ordered: bool, lines: Arg, samples: Arg, toGrid: bool)
    requires forall l: real, s: real {:trigger h(l, s)} :: h(l, s) == bearing(f1(l, s).0, f1(l, s).1, f2(l, s).0, f2(l, s).1)
    ensures var a := Raw(f1, ordered, lines, samples, toGrid);
            var b := Raw(f2, ordered, lines, samples, toGrid);
            var c := Raw(h, ordered, lines, samples, toGrid);
            (a.Success? <==> c.Success?) && (a.Success? <==> b.Success?) &&
            (a.Failure? ==> c.error == a.error) &&
            (a.Success? ==> SameShape(a.value, b.value) && c.value == Zip(a.value, b.value, bearing))
  {
    var lv := Values(lines);
    var sv := Values(samples);
    if toGrid {
      var t1 := GridOf(f1, lv, sv);
      var t2 := GridOf(f2, lv, sv);
      var t3 := GridOf(h, lv, sv);
      assert SameShape(Table(t1), Table(t2));
      var z := Zip(Table(t1), Table(t2), bearing);
      forall i | 0 <= i < |lv|
        ensures z.rows[i] == t3[i]
      {
        forall j | 0 <= j < |sv|
          ensures z.rows[i][j] == t3[i][j]
        {
          var l0: real, s0: real := lv[i], sv[j];
          assert h(l0, s0) == bearing(f1(l0, s0).0, f1(l0, s0).1, f2(l0, s0).0, f2(l0, s0).1);
        }
      }
      assert z.rows == t3;
    } else if lines.Scalar? && samples.Scalar? {
      var l0: real, s0: real := lines.x, samples.x;
      assert h(l0, s0) == bearing(f1(l0, s0).0, f1(l0, s0).1, f2(l0, s0).0, f2(l0, s0).1);
    } else if Broadcast(lines, samples).Success? {
      var p := Broadcast(lines, samples).value;
      var m1 := MapPairs(f1, p);
      var m2 := MapPairs(f2, p);
      var m3 := MapPairs(h, p);
      var z := Zip(Many(m1), Many(m2), bearing);
      forall k | 0 <= k < |p|
        ensures z.values[k] == m3[k]
      {
        var l0: real, s0: real := p[k].0, p[k].1;
        assert h(l0, s0) == bearing(f1(l0, s0).0, f1(l0, s0).1, f2(l0, s0).0, f2(l0, s0).1);
      }
      assert z.values == m3;
    }
  }

  /** `.item()` of combined results of one shape combines the two items. */
  lemma ItemZip(a: Shaped<(real, real)>, b: Shaped<(real, real)>, bearing: Bearing)
    requires SameShape(a, b)
    ensures Item(a).Success? <==> Item(b).Success?
    ensures Item(a).Success? <==> Item(Zip(a, b, bearing)).Success?
    ensures Item(a).Success? ==>
              var p := Item(a).value; var q := Item(b).value;
              Item(Zip(a, b, bearing)) == Success(bearing(p.0, p.1, q.0, q.1))
  {
  }

  /** Lifting a point-wise combination of two functions is combining their
      lifted results. */
  lemma LiftZip(f1: (real, real) -> (real, real), f2: (real, real) -> (real, real), h: (real, real) -> real,
                bearing: Bearing, ordered: bool, lines: Arg, samples: Arg, toGrid: bool)
    requires forall l: real, s: real {:trigger h(l, s)} :: h(l, s) == bearing(f1(l, s).0, f1(l, s).1, f2(l, s).0, f2(l, s).1)
    ensures var a := Lift(f1, ordered, lines, samples, toGrid);
            var b := Lift(f2, ordered, lines, samples, toGrid);
            var c := Lift(h, ordered, lines, samples, toGrid);
            (a.Success? <==> c.Success?) && (a.Success? <==> b.Success?) &&
            (a.Failure? ==> c.error == a.error) &&
            (a.Success? ==> SameShape(a.value, b.value) && c.value == Zip(a.value, b.value, bearing))
  {
    RawZip(f1, f2, h, bearing, ordered, lines, samples, toGrid);
    var ra := Raw(f1, ordered, lines, samples, toGrid);
    var rb := Raw(f2, ordered, lines, samples, toGrid);
    if ra.Success? {
      ItemZip(ra.value, rb.value, bearing);
    }
  }

  /** The heading is the bearing between the two results of `coords2ll`,
      one line before and one line after: computing it point by point is
      computing the two conversions and combining them. */
  lemma HeadingComposes(src: Source, flag: bool, toLon180: real -> real, bearing: Bearing, lines: Arg, samples: Arg, toGrid: bool)
    ensures var first := LonLatSpec(src, flag, toLon180, Shift(lines, -1.0), samples, toGrid);
            var second := LonLatSpec(src, flag, toLon180, Shift(lines, 1.0), samples, toGrid);
            var h := HeadingSpec(src, flag, toLon180, bearing, lines, samples, toGrid);
            (h.Success? <==> first.Success?) && (first.Success? <==> second.Success?) &&
            (first.Failure? ==> h.error == first.error) &&
            (first.Success? ==> SameShape(first.value, second.value) && h.value == Zip(first.value, second.value, bearing))
  {
    var f := PointMap(src, flag, toLon180);
    var f1 := ShiftFn(f, -1.0);
    var f2 := ShiftFn(f, 1.0);
    var h := HeadingMap(src, flag, toLon180, bearing);
    LiftShift(f, src.Exact?, lines, samples, toGrid, -1.0);
    LiftShift(f, src.Exact?, lines, samples, toGrid, 1.0);
    forall l: real, s: real
      ensures h(l, s) == bearing(f1(l, s).0, f1(l, s).1, f2(l, s).0, f2(l, s).1)
    {
      assert l + -1.0 == l - 1.0;
    }
    LiftZip(f1, f2, h, bearing, src.Exact?, lines, samples, toGrid);
  }
}
