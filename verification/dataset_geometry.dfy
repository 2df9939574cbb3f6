/** The atrack/xtrack geometry of a Sentinel-1 dataset: its padded bounding
    box, whether it is regularly spaced, and the snapping of converted
    coordinates to the dataset's own grid. The 90th percentile of the
    coordinate spacing is computed by numpy and enters as a parameter. */
module DatasetGeometry {
  import opened Common

  function Abs(x: real): real { if x < 0.0 then -x else x }

  /** Python indexing, where -1 is the last element. */
  function PyIndex(s: seq<real>, i: int): real
    requires 0 <= i < |s| || -|s| <= i < 0
  {
    if i >= 0 then s[i] else s[|s| + i]
  }

  /** The corners, as Python indices into (atrack, xtrack). */
  const BBoxNorm: seq<(int, int)> := [(0, 0), (0, -1), (-1, -1), (-1, 0)]

  /** The padding `(-d / 2, d / 2)`, indexed by 0 or -1. */
  function Pad(d: real, i: int): real
    requires i == 0 || i == -1
  {
    if i == 0 then -d / 2.0 else d / 2.0
  }

  /** `_bbox_coords`: the four corners of the grid, each pushed outwards by
      half the typical spacing, in the order (first, first), (first, last),
      (last, last), (last, first). */
  function BBoxCoords(atrack: seq<real>, xtrack: seq<real>, adiff: real, xdiff: real): (r: Result<seq<(real, real)>>)
    ensures r.Failure? <==> |atrack| == 0 || |xtrack| == 0
    ensures r.Failure? ==> r.error == IndexError
    ensures r.Success? ==> |r.value| == 4
  {
    if |atrack| == 0 || |xtrack| == 0 then Failure(IndexError)
    else
      Success(seq(4, k requires 0 <= k < 4 =>
        (PyIndex(atrack, BBoxNorm[k].0) + Pad(adiff, BBoxNorm[k].0),
         PyIndex(xtrack, BBoxNorm[k].1) + Pad(xdiff, BBoxNorm[k].1))))
  }

  predicate Increasing(s: seq<real>)
  {
    forall i, j :: 0 <= i < j < |s| ==> s[i] < s[j]
  }

  /** The box traces a closed rectangle: consecutive corners share one
      coordinate, the first corner is the low/low one and the third the
      high/high one, half a spacing beyond the grid. */
  lemma BBoxIsRectangle(atrack: seq<real>, xtrack: seq<real>, adiff: real, xdiff: real)
    requires |atrack| > 0 && |xtrack| > 0
    ensures var b := BBoxCoords(atrack, xtrack, adiff, xdiff).value;
            b[0].0 == b[1].0 && b[1].1 == b[2].1 && b[2].0 == b[3].0 && b[3].1 == b[0].1 &&
            b[0] == (atrack[0] - adiff / 2.0, xtrack[0] - xdiff / 2.0) &&
            b[2] == (atrack[|atrack| - 1] + adiff / 2.0, xtrack[|xtrack| - 1] + xdiff / 2.0)
  {
  }

  /** For increasing coordinates and a non-negative spacing, the box
      encloses every pixel of the grid. */
  lemma BBoxEncloses(atrack: seq<real>, xtrack: seq<real>, adiff: real, xdiff: real, i: nat, j: nat)
    requires Increasing(atrack) && Increasing(xtrack)
    requires adiff >= 0.0 && xdiff >= 0.0
    requires i < |atrack| && j < |xtrack|
    ensures var b := BBoxCoords(atrack, xtrack, adiff, xdiff).value;
            b[0].0 <= atrack[i] <= b[2].0 && b[0].1 <= xtrack[j] <= b[2].1
  {
    BBoxIsRectangle(atrack, xtrack, adiff, xdiff);
    assert atrack[0] <= atrack[i] <= atrack[|atrack| - 1];
    assert xtrack[0] <= xtrack[j] <= xtrack[|xtrack| - 1];
  }

  /** `np.diff(s)[i]` */
  function DiffAt(s: seq<real>, i: nat): real
    requires i + 1 < |s|
  {
    s[i + 1] - s[i]
  }

  /** `np.unique(np.diff(s))`, as a set. */
  function DiffSet(s: seq<real>): set<real>
  {
    set i | 0 <= i < |s| - 1 :: DiffAt(s, i)
  }

  /** `_regularly_spaced`: at most one distinct spacing along each
      dimension, and exactly one along at least one of them. */
  function RegularlySpaced(atrack: seq<real>, xtrack: seq<real>): bool
  {
    Max(|DiffSet(atrack)| as real, |DiffSet(xtrack)| as real) == 1.0
  }

  /** All consecutive differences are the same. */
  predicate Progression(s: seq<real>)
  {
    forall i :: 0 <= i < |s| - 1 ==> DiffAt(s, i) == DiffAt(s, 0)
  }

  lemma {:induction false} DiffSetSize(s: seq<real>)
    ensures |s| <= 1 <==> |DiffSet(s)| == 0
    ensures Progression(s) <==> |DiffSet(s)| <= 1
  {
    if |s| >= 2 {
      assert DiffAt(s, 0) in DiffSet(s);
      if Progression(s) {
        forall x | x in DiffSet(s)
          ensures x == DiffAt(s, 0)
        {
        }
        assert DiffSet(s) == {DiffAt(s, 0)};
      } else {
        var i :| 0 <= i < |s| - 1 && DiffAt(s, i) != DiffAt(s, 0);
        assert DiffAt(s, i) in DiffSet(s);
        assert {DiffAt(s, 0), DiffAt(s, i)} <= DiffSet(s);
        SubsetCard({DiffAt(s, 0), DiffAt(s, i)}, DiffSet(s));
      }
    } else {
      assert DiffSet(s) == {};
    }
  }

  lemma {:induction false} SubsetCard<T>(a: set<T>, b: set<T>)
    requires a <= b
    ensures |a| <= |b|
    decreases |a|
  {
    if a != {} {
      var x :| x in a;
      SubsetCard(a - {x}, b - {x});
    }
  }

  /** The dataset is regularly spaced exactly when both coordinates are
      arithmetic progressions and at least one of them has two values. */
  lemma RegularlySpacedMeans(atrack: seq<real>, xtrack: seq<real>)
    ensures RegularlySpaced(atrack, xtrack) <==>
              Progression(atrack) && Progression(xtrack) && (|atrack| >= 2 || |xtrack| >= 2)
  {
    DiffSetSize(atrack);
    DiffSetSize(xtrack);
  }

  /** The index of the grid coordinate nearest to `v`; of two equally near
      coordinates the later is taken, as pandas does on an increasing
      index. */
  function Nearest(coords: seq<real>, v: real): (i: nat)
    requires |coords| > 0
    ensures i < |coords|
    ensures forall j :: 0 <= j < |coords| ==> Abs(coords[i] - v) <= Abs(coords[j] - v)
    ensures forall j :: i < j < |coords| ==> Abs(coords[i] - v) < Abs(coords[j] - v)
  {
    if |coords| == 1 then 0
    else
      var k := Nearest(coords[..|coords| - 1], v);
      assert forall j :: 0 <= j < |coords| - 1 ==> coords[..|coords| - 1][j] == coords[j];
      if Abs(coords[|coords| - 1] - v) <= Abs(coords[k] - v) then |coords| - 1 else k
  }

  /** Whether every requested coordinate has a grid coordinate within the
      tolerance. */
  predicate AllWithin(coords: seq<real>, vs: seq<real>, tolerance: real)
  {
    |coords| > 0 && forall k :: 0 <= k < |vs| ==> Abs(coords[Nearest(coords, vs[k])] - vs[k]) <= tolerance
  }

  function AllMissing(n: nat): (r: seq<Pixel>)
    ensures |r| == n && forall k :: 0 <= k < n ==> r[k].None?
  {
    seq(n, k => None)
  }

  /** The tolerance of `ll2coords`: half the larger typical spacing, plus 1. */
  function Tolerance(adiff: real, xdiff: real): (t: real)
    ensures t >= adiff / 2.0 + 1.0 && t >= xdiff / 2.0 + 1.0
    ensures t == adiff / 2.0 + 1.0 || t == xdiff / 2.0 + 1.0
  {
    Max(adiff / 2.0, xdiff / 2.0) + 1.0
  }

  /** `ll2coords` of the dataset: each converted coordinate is replaced by
      the nearest grid coordinate; if any of them, along either dimension,
      is further than the tolerance from the grid, all become NaN. */
  function SnapToGrid(gridA: seq<real>, gridX: seq<real>, atracks: seq<real>, xtracks: seq<real>, adiff: real, xdiff: real): (r: (seq<Pixel>, seq<Pixel>))
    ensures |r.0| == |atracks| && |r.1| == |xtracks|
    ensures ((forall k :: 0 <= k < |r.0| ==> r.0[k].None?) && (forall k :: 0 <= k < |r.1| ==> r.1[k].None?)) ||
            ((forall k :: 0 <= k < |r.0| ==> r.0[k].Some?) && (forall k :: 0 <= k < |r.1| ==> r.1[k].Some?))
  {
    var tol := Tolerance(adiff, xdiff);
    if AllWithin(gridA, atracks, tol) && AllWithin(gridX, xtracks, tol) then
      (seq(|atracks|, k requires 0 <= k < |atracks| => Some(gridA[Nearest(gridA, atracks[k])])),
       seq(|xtracks|, k requires 0 <= k < |xtracks| => Some(gridX[Nearest(gridX, xtracks[k])])))
    else (AllMissing(|atracks|), AllMissing(|xtracks|))
  }

  /** Whether the requested coordinate `vs[k]` has no grid coordinate
      within the tolerance. */
  predicate OutOfTolerance(coords: seq<real>, vs: seq<real>, k: nat, tolerance: real)
    requires k < |vs|
  {
    |coords| == 0 || Abs(coords[Nearest(coords, vs[k])] - vs[k]) > tolerance
  }

  /** A single point out of tolerance, on either dimension, makes every
      point NaN. */
  lemma SnapAllOrNothing(gridA: seq<real>, gridX: seq<real>, atracks: seq<real>, xtracks: seq<real>, adiff: real, xdiff: real, k: nat)
    requires (k < |atracks| && OutOfTolerance(gridA, atracks, k, Tolerance(adiff, xdiff))) ||
             (k < |xtracks| && OutOfTolerance(gridX, xtracks, k, Tolerance(adiff, xdiff)))
    ensures var r := SnapToGrid(gridA, gridX, atracks, xtracks, adiff, xdiff);
            (forall j :: 0 <= j < |atracks| ==> r.0[j].None?) && (forall j :: 0 <= j < |xtracks| ==> r.1[j].None?)
  {
  }

  /** When every point is within tolerance, each becomes a grid coordinate
      within tolerance of it and no grid coordinate is nearer. */
  lemma SnapNearest(gridA: seq<real>, gridX: seq<real>, atracks: seq<real>, xtracks: seq<real>, adiff: real, xdiff: real)
    requires AllWithin(gridA, atracks, Tolerance(adiff, xdiff)) && AllWithin(gridX, xtracks, Tolerance(adiff, xdiff))
    ensures var r := SnapToGrid(gridA, gridX, atracks, xtracks, adiff, xdiff);
            forall k :: 0 <= k < |atracks| ==>
              r.0[k].Some? && r.0[k].value in gridA &&
              Abs(r.0[k].value - atracks[k]) <= Tolerance(adiff, xdiff) &&
              forall j :: 0 <= j < |gridA| ==> Abs(r.0[k].value - atracks[k]) <= Abs(gridA[j] - atracks[k])
    ensures var r := SnapToGrid(gridA, gridX, atracks, xtracks, adiff, xdiff);
            forall k :: 0 <= k < |xtracks| ==>
              r.1[k].Some? && r.1[k].value in gridX &&
              Abs(r.1[k].value - xtracks[k]) <= Tolerance(adiff, xdiff) &&
              forall j :: 0 <= j < |gridX| ==> Abs(r.1[k].value - xtracks[k]) <= Abs(gridX[j] - xtracks[k])
  {
  }

  /** Snapping a coordinate of an increasing grid gives that coordinate
      back. */
  lemma NearestOfGridPoint(coords: seq<real>, i: nat)
    requires Increasing(coords) && i < |coords|
    ensures Nearest(coords, coords[i]) == i
  {
    var n := Nearest(coords, coords[i]);
    assert Abs(coords[n] - coords[i]) <= Abs(coords[i] - coords[i]);
  }

  /** Grid coordinates are snapped to themselves (the tolerance is at least
      1 for non-negative spacings). */
  lemma SnapGridPoints(gridA: seq<real>, gridX: seq<real>, ia: seq<nat>, ix: seq<nat>, adiff: real, xdiff: real)
    requires Increasing(gridA) && Increasing(gridX) && adiff >= 0.0 && xdiff >= 0.0
    requires |gridA| > 0 && |gridX| > 0
    requires forall k :: 0 <= k < |ia| ==> ia[k] < |gridA|
    requires forall k :: 0 <= k < |ix| ==> ix[k] < |gridX|
    ensures var atracks := seq(|ia|, k requires 0 <= k < |ia| => gridA[ia[k]]);
            var xtracks := seq(|ix|, k requires 0 <= k < |ix| => gridX[ix[k]]);
            SnapToGrid(gridA, gridX, atracks, xtracks, adiff, xdiff) ==
              (seq(|ia|, k requires 0 <= k < |ia| => Some(gridA[ia[k]])),
               seq(|ix|, k requires 0 <= k < |ix| => Some(gridX[ix[k]])))
  {
    var atracks := seq(|ia|, k requires 0 <= k < |ia| => gridA[ia[k]]);
    var xtracks := seq(|ix|, k requires 0 <= k < |ix| => gridX[ix[k]]);
    forall k | 0 <= k < |ia|
      ensures Nearest(gridA, atracks[k]) == ia[k]
    {
      NearestOfGridPoint(gridA, ia[k]);
    }
    forall k | 0 <= k < |ix|
      ensures Nearest(gridX, xtracks[k]) == ix[k]
    {
      NearestOfGridPoint(gridX, ix[k]);
    }
    assert AllWithin(gridA, atracks, Tolerance(adiff, xdiff));
    assert AllWithin(gridX, xtracks, Tolerance(adiff, xdiff));
    var r := SnapToGrid(gridA, gridX, atracks, xtracks, adiff, xdiff);
    assert r.0 == seq(|ia|, k requires 0 <= k < |ia| => Some(gridA[ia[k]]));
    assert r.1 == seq(|ix|, k requires 0 <= k < |ix| => Some(gridX[ix[k]]));
  }

  /** The coordinates of a (pol, atrack, xtrack) field; its pixels are laid
      out pol-major, then atrack, then xtrack. */
  datatype Coords = Coords(pol: seq<string>, atrack: seq<real>, xtrack: seq<real>)

  function Size(c: Coords): nat
  {
    |c.pol| * |c.atrack| * |c.xtrack|
  }

  /** The position of pixel (p, i, j) in the flattened field. */
  function FlatIndex(c: Coords, p: nat, i: nat, j: nat): (k: nat)
    requires p < |c.pol| && i < |c.atrack| && j < |c.xtrack|
    ensures k < Size(c)
  {
    IndexBound(p, i, |c.pol|, |c.atrack|);
    IndexBound(p * |c.atrack| + i, j, |c.pol| * |c.atrack|, |c.xtrack|);
    (p * |c.atrack| + i) * |c.xtrack| + j
  }

  /** `a * B + b` stays below `A * B` for `a < A` and `b < B`. */
  lemma IndexBound(a: nat, b: nat, n: nat, m: nat)
    requires a < n && b < m
    ensures a * m + b < n * m
  {
    MulMono(a + 1, n, m);
  }

  lemma MulMono(x: nat, y: nat, m: nat)
    requires x <= y
    ensures x * m <= y * m
  {
    assert y * m == x * m + (y - x) * m;
  }

  /** Euclidean division undoes `q * m + j` for `0 <= j < m`. */
  lemma DivModOf(q: nat, j: nat, m: nat)
    requires j < m
    ensures (q * m + j) / m == q && (q * m + j) % m == j
  {
    var k := q * m + j;
    var d := k / m;
    assert k == d * m + k % m;
    if d > q {
      MulMono(q + 1, d, m);
    } else if d < q {
      MulMono(d + 1, q, m);
    }
  }

  /** Every position below `n * m` is `(k / m) * m + k % m`, with the
      quotient below `n`. */
  lemma SplitIndex(k: nat, n: nat, m: nat)
    requires k < n * m
    ensures m > 0 && k / m < n && k == (k / m) * m + k % m && k % m < m
  {
    if k / m >= n {
      MulMono(n, k / m, m);
    }
  }

  /** The pixel at position `k`. */
  function PixelOf(c: Coords, k: nat): (pij: (nat, nat, nat))
    requires k < Size(c)
    ensures pij.0 < |c.pol| && pij.1 < |c.atrack| && pij.2 < |c.xtrack|
    ensures FlatIndex(c, pij.0, pij.1, pij.2) == k
  {
    SplitIndex(k, |c.pol| * |c.atrack|, |c.xtrack|);
    var q := k / |c.xtrack|;
    SplitIndex(q, |c.pol|, |c.atrack|);
    (q / |c.atrack|, q % |c.atrack|, k % |c.xtrack|)
  }

  /** Distinct pixels have distinct positions. */
  lemma FlatIndexInjective(c: Coords, p: nat, i: nat, j: nat)
    requires p < |c.pol| && i < |c.atrack| && j < |c.xtrack|
    ensures PixelOf(c, FlatIndex(c, p, i, j)) == (p, i, j)
  {
    var k := FlatIndex(c, p, i, j);
    DivModOf(p * |c.atrack| + i, j, |c.xtrack|);
    DivModOf(p, i, |c.atrack|);
  }

  /** `lut.sel(atrack=.., xtrack=.., method='nearest')` followed by forcing
      the requested coordinates: the field on `to`'s pixels, each read at
      the nearest atrack and nearest xtrack of the field's own grid `from`
      (same polarisations). */
  function ResizeNearest(lut: Field, from: Coords, to: Coords): (r: Field)
    requires |lut| == Size(from) && |from.pol| == |to.pol|
    requires |to.atrack| > 0 ==> |from.atrack| > 0
    requires |to.xtrack| > 0 ==> |from.xtrack| > 0
    ensures |r| == Size(to)
    ensures forall p: nat, i: nat, j: nat :: p < |to.pol| && i < |to.atrack| && j < |to.xtrack| ==>
              r[FlatIndex(to, p, i, j)] ==
                lut[FlatIndex(from, p, Nearest(from.atrack, to.atrack[i]), Nearest(from.xtrack, to.xtrack[j]))]
  {
    var r := seq(Size(to), k requires 0 <= k < Size(to) =>
      var pij := PixelOf(to, k);
      lut[FlatIndex(from, pij.0, Nearest(from.atrack, to.atrack[pij.1]), Nearest(from.xtrack, to.xtrack[pij.2]))]);
    assert forall p: nat, i: nat, j: nat :: p < |to.pol| && i < |to.atrack| && j < |to.xtrack| ==>
              r[FlatIndex(to, p, i, j)] ==
                lut[FlatIndex(from, p, Nearest(from.atrack, to.atrack[i]), Nearest(from.xtrack, to.xtrack[j]))] by {
      forall p: nat, i: nat, j: nat | p < |to.pol| && i < |to.atrack| && j < |to.xtrack| {
        FlatIndexInjective(to, p, i, j);
      }
    }
    r
  }

  /** Re-indexing a field onto its own increasing grid leaves it unchanged. */
  lemma ResizeOntoItself(lut: Field, c: Coords)
    requires |lut| == Size(c) && Increasing(c.atrack) && Increasing(c.xtrack)
    ensures ResizeNearest(lut, c, c) == lut
  {
    var r := ResizeNearest(lut, c, c);
    forall k | 0 <= k < |lut|
      ensures r[k] == lut[k]
    {
      var pij := PixelOf(c, k);
      NearestOfGridPoint(c.atrack, pij.1);
      NearestOfGridPoint(c.xtrack, pij.2);
    }
  }
}
