/** The geolocation grid of a RadarSat-2 product and what the metadata
    derives from it: the antimeridian test, the `% 360` rewrite of the
    longitudes, the footprint corners and the ground control points. */
module Geolocation {
  import opened Common

  /** Tie-point line and pixel coordinates, and longitude, latitude and
      height at every (line, pixel) node, indexed `[line][pixel]`. */
  datatype GeoGrid = GeoGrid(lines: seq<real>, pixels: seq<real>,
                             lon: seq<seq<real>>, lat: seq<seq<real>>, height: seq<seq<real>>)

  /** `n` rows of `m` values each. */
  predicate Table(v: seq<seq<real>>, n: nat, m: nat)
  {
    |v| == n && forall i :: 0 <= i < n ==> |v[i]| == m
  }

  predicate WellShaped(g: GeoGrid)
  {
    Table(g.lon, |g.lines|, |g.pixels|) && Table(g.lat, |g.lines|, |g.pixels|) &&
    Table(g.height, |g.lines|, |g.pixels|)
  }

  predicate NonEmpty(g: GeoGrid)
  {
    |g.lines| > 0 && |g.pixels| > 0
  }

  /** The values of a table, row after row. */
  function Flat(v: seq<seq<real>>): seq<real>
  {
    if |v| == 0 then [] else v[0] + Flat(v[1..])
  }

  function MaxOf(s: seq<real>): (m: real)
    requires |s| > 0
    ensures forall i :: 0 <= i < |s| ==> s[i] <= m
    ensures exists i :: 0 <= i < |s| && s[i] == m
  {
    if |s| == 1 then s[0] else Max(s[0], MaxOf(s[1..]))
  }

  function MinOf(s: seq<real>): (m: real)
    requires |s| > 0
    ensures forall i :: 0 <= i < |s| ==> m <= s[i]
    ensures exists i :: 0 <= i < |s| && s[i] == m
  {
    if |s| == 1 then s[0] else
      var rest := MinOf(s[1..]);
      if s[0] <= rest then s[0] else rest
  }

  /** Every value of the table appears in its flattening, and only those. */
  lemma {:induction false} FlatMembers(v: seq<seq<real>>, x: real)
    ensures x in Flat(v) <==> exists i, j :: 0 <= i < |v| && 0 <= j < |v[i]| && v[i][j] == x
  {
    if |v| > 0 {
      FlatMembers(v[1..], x);
      assert x in Flat(v) <==> x in v[0] || x in Flat(v[1..]);
      if x in v[0] {
        var j :| 0 <= j < |v[0]| && v[0][j] == x;
        assert v[0][j] == x;
      }
      if x in Flat(v[1..]) {
        var i, j :| 0 <= i < |v[1..]| && 0 <= j < |v[1..][i]| && v[1..][i][j] == x;
        assert v[i + 1][j] == x;
      }
      if exists i, j :: 0 <= i < |v| && 0 <= j < |v[i]| && v[i][j] == x {
        var i, j :| 0 <= i < |v| && 0 <= j < |v[i]| && v[i][j] == x;
        if i > 0 {
          assert v[1..][i - 1][j] == x;
        }
      }
    }
  }

  /** `cross_antemeridian`: the longitudes of the grid span more than 180
      degrees. */
  function CrossesAntimeridian(g: GeoGrid): bool
    requires WellShaped(g) && NonEmpty(g)
  {
    assert g.lon[0][0] in Flat(g.lon) by { FlatMembers(g.lon, g.lon[0][0]); }
    var all := Flat(g.lon);
    MaxOf(all) - MinOf(all) > 180.0
  }

  /** The grid crosses the antimeridian exactly when two of its nodes are
      more than 180 degrees of longitude apart. */
  lemma CrossesIff(g: GeoGrid)
    requires WellShaped(g) && NonEmpty(g)
    ensures CrossesAntimeridian(g) <==>
              exists i, j, k, l :: 0 <= i < |g.lines| && 0 <= j < |g.pixels| &&
                                   0 <= k < |g.lines| && 0 <= l < |g.pixels| &&
                                   g.lon[i][j] - g.lon[k][l] > 180.0
  {
    if CrossesAntimeridian(g) {
      CrossesHasNodes(g);
    }
    if exists i, j, k, l :: 0 <= i < |g.lines| && 0 <= j < |g.pixels| &&
                             0 <= k < |g.lines| && 0 <= l < |g.pixels| &&
                             g.lon[i][j] - g.lon[k][l] > 180.0 {
      var i, j, k, l :| 0 <= i < |g.lines| && 0 <= j < |g.pixels| &&
                        0 <= k < |g.lines| && 0 <= l < |g.pixels| &&
                        g.lon[i][j] - g.lon[k][l] > 180.0;
      NodesCross(g, i, j, k, l);
    }
  }

  /** The extremes of the longitudes are two nodes of the grid. */
  lemma CrossesHasNodes(g: GeoGrid)
    requires WellShaped(g) && NonEmpty(g) && CrossesAntimeridian(g)
    ensures exists i, j, k, l :: 0 <= i < |g.lines| && 0 <= j < |g.pixels| &&
                                 0 <= k < |g.lines| && 0 <= l < |g.pixels| &&
                                 g.lon[i][j] - g.lon[k][l] > 180.0
  {
    var all := Flat(g.lon);
    FlatMembers(g.lon, g.lon[0][0]);
    var hi := MaxOf(all);
    var lo := MinOf(all);
    var p :| 0 <= p < |all| && all[p] == hi;
    var q :| 0 <= q < |all| && all[q] == lo;
    FlatMembers(g.lon, hi);
    FlatMembers(g.lon, lo);
    var i, j :| 0 <= i < |g.lon| && 0 <= j < |g.lon[i]| && g.lon[i][j] == hi;
    var k, l :| 0 <= k < |g.lon| && 0 <= l < |g.lon[k]| && g.lon[k][l] == lo;
    assert g.lon[i][j] - g.lon[k][l] > 180.0;
  }

  /** Two nodes more than 180 degrees apart bound the extremes. */
  lemma NodesCross(g: GeoGrid, i: nat, j: nat, k: nat, l: nat)
    requires WellShaped(g) && NonEmpty(g)
    requires i < |g.lines| && j < |g.pixels| && k < |g.lines| && l < |g.pixels|
    requires g.lon[i][j] - g.lon[k][l] > 180.0
    ensures CrossesAntimeridian(g)
  {
    var all := Flat(g.lon);
    FlatMembers(g.lon, g.lon[i][j]);
    FlatMembers(g.lon, g.lon[k][l]);
    var p :| 0 <= p < |all| && all[p] == g.lon[i][j];
    var q :| 0 <= q < |all| && all[q] == g.lon[k][l];
    assert g.lon[i][j] <= MaxOf(all);
    assert MinOf(all) <= g.lon[k][l];
  }

  /** Python's `x % 360` on a float: the representative in [0, 360) that
      differs from `x` by whole turns. */
  function Mod360(x: real): (r: real)
    ensures 0.0 <= r < 360.0
    ensures ((x - r) / 360.0).Floor as real == (x - r) / 360.0
    ensures 0.0 <= x < 360.0 ==> r == x
  {
    var k := (x / 360.0).Floor;
    assert k as real <= x / 360.0 < k as real + 1.0;
    assert 0.0 <= x < 360.0 ==> k == 0;
    x - 360.0 * k as real
  }

  function Mod360Row(row: seq<real>): (r: seq<real>)
    ensures |r| == |row| && forall j :: 0 <= j < |r| ==> r[j] == Mod360(row[j])
  {
    seq(|row|, j requires 0 <= j < |row| => Mod360(row[j]))
  }

  /** `geoloc['longitude'] = geoloc['longitude'] % 360`: only the
      longitudes change. */
  function Rewrite(g: GeoGrid): (r: GeoGrid)
    ensures r.lines == g.lines && r.pixels == g.pixels && r.lat == g.lat && r.height == g.height
    ensures |r.lon| == |g.lon| && forall i :: 0 <= i < |r.lon| ==> r.lon[i] == Mod360Row(g.lon[i])
    ensures WellShaped(g) ==> WellShaped(r)
  {
    g.(lon := seq(|g.lon|, i requires 0 <= i < |g.lon| => Mod360Row(g.lon[i])))
  }

  /** Rewriting an already rewritten grid changes nothing. */
  lemma RewriteIdempotent(g: GeoGrid)
    ensures Rewrite(Rewrite(g)) == Rewrite(g)
  {
    var once := Rewrite(g);
    var twice := Rewrite(once);
    forall i | 0 <= i < |g.lon|
      ensures twice.lon[i] == once.lon[i]
    {
      assert Mod360Row(once.lon[i]) == once.lon[i];
    }
  }

  /** The node indices of the footprint corners: first line first pixel,
      first line last pixel, last line last pixel, last line first pixel
      (`-1` being the last index). */
  function CornerNodes(n: nat, m: nat): (r: seq<(nat, nat)>)
    requires n > 0 && m > 0
    ensures |r| == 4 && forall k :: 0 <= k < 4 ==> r[k].0 < n && r[k].1 < m
  {
    [(0, 0), (0, m - 1), (n - 1, m - 1), (n - 1, 0)]
  }

  /** The corners go round the border of the grid: two consecutive corners
      (the last one followed by the first) share a line or a pixel, and on a
      grid of at least two lines and two pixels they are four distinct
      nodes. */
  lemma CornersRing(n: nat, m: nat)
    requires n > 0 && m > 0
    ensures var c := CornerNodes(n, m);
            c[0].0 == c[1].0 && c[1].1 == c[2].1 && c[2].0 == c[3].0 && c[3].1 == c[0].1
    ensures var c := CornerNodes(n, m);
            n >= 2 && m >= 2 ==> forall k, l :: 0 <= k < l < 4 ==> c[k] != c[l]
    ensures var c := CornerNodes(n, m);
            forall k :: 0 <= k < 4 ==> (c[k].0 == 0 || c[k].0 == n - 1) && (c[k].1 == 0 || c[k].1 == m - 1)
  {
  }

  /** The footprint corners as (longitude, latitude); an IndexError on an
      empty grid. */
  function Footprint(g: GeoGrid): (r: Result<seq<(real, real)>>)
    requires WellShaped(g)
    ensures r.Failure? <==> !NonEmpty(g)
    ensures r.Success? ==>
              |r.value| == 4 &&
              forall k :: 0 <= k < 4 ==>
                var c := CornerNodes(|g.lines|, |g.pixels|)[k];
                r.value[k] == (g.lon[c.0][c.1], g.lat[c.0][c.1])
  {
    if !NonEmpty(g) then Failure(IndexError)
    else
      var c := CornerNodes(|g.lines|, |g.pixels|);
      Success(seq(4, k requires 0 <= k < 4 => (g.lon[c[k].0][c[k].1], g.lat[c[k].0][c[k].1])))
  }

  /** A rasterio ground control point: `x` longitude, `y` latitude, `z`
      height, `col` the line and `row` the pixel coordinate. */
  datatype Gcp = Gcp(x: real, y: real, z: real, col: real, row: real)

  function GcpAt(g: GeoGrid, i: nat, j: nat): Gcp
    requires WellShaped(g) && i < |g.lines| && j < |g.pixels|
  {
    Gcp(g.lon[i][j], g.lat[i][j], g.height[i][j], g.lines[i], g.pixels[j])
  }

  /** The control points of lines `i..`, line after line, pixel after pixel
      within a line. */
  function GcpRows(g: GeoGrid, i: nat): (r: seq<Gcp>)
    requires WellShaped(g) && i <= |g.lines|
    ensures |r| == (|g.lines| - i) * |g.pixels|
    decreases |g.lines| - i
  {
    if i == |g.lines| then []
    else
      var rest := GcpRows(g, i + 1);
      assert (|g.lines| - i) * |g.pixels| == |g.pixels| + (|g.lines| - (i + 1)) * |g.pixels|;
      seq(|g.pixels|, j requires 0 <= j < |g.pixels| => GcpAt(g, i, j)) + rest
  }

  /** The control points of the whole grid. */
  function Gcps(g: GeoGrid): (r: seq<Gcp>)
    requires WellShaped(g)
    ensures |r| == |g.lines| * |g.pixels|
  {
    GcpRows(g, 0)
  }

  /** There is one control point per (line, pixel) node, the node `(i, j)`
      at position `i * |pixels| + j`: line-major order. */
  lemma {:induction false} GcpOrder(g: GeoGrid, i: nat, j: nat)
    requires WellShaped(g) && i < |g.lines| && j < |g.pixels|
    ensures |Gcps(g)| == |g.lines| * |g.pixels|
    ensures i * |g.pixels| + j < |Gcps(g)|
    ensures Gcps(g)[i * |g.pixels| + j] == GcpAt(g, i, j)
  {
    GcpRowsAt(g, 0, i, j);
  }

  lemma {:induction false} GcpRowsAt(g: GeoGrid, from: nat, i: nat, j: nat)
    requires WellShaped(g) && from <= i < |g.lines| && j < |g.pixels|
    ensures (i - from) * |g.pixels| + j < |GcpRows(g, from)|
    ensures GcpRows(g, from)[(i - from) * |g.pixels| + j] == GcpAt(g, i, j)
    decreases i - from
  {
    var m := |g.pixels|;
    var head := seq(m, q requires 0 <= q < m => GcpAt(g, from, q));
    var rest := GcpRows(g, from + 1);
    assert GcpRows(g, from) == head + rest;
    if from == i {
      assert (i - from) * m + j == j;
    } else {
      GcpRowsAt(g, from + 1, i, j);
      MulStep(i - (from + 1), m);
      assert (i - from) * m + j == m + ((i - (from + 1)) * m + j);
    }
  }

  lemma MulStep(a: nat, m: nat)
    ensures (a + 1) * m == m + a * m
  {
  }
}
