/** The RadarSat-2 metadata object: the names parsed from the dataset
    identifier, the manifest attributes derived from the product (swath,
    polarisations, dates, footprint, coverage, approximate transform), the
    per-instance mask tables, the memoised acquisition time range, the
    minimal dictionary it is rebuilt from, and the conversions between image
    and ground coordinates. */
module RadarSat2 {
  import opened Common
  import opened AffineMap
  import opened Geolocation
  import opened LonLatMapping
  import opened RadarSat2Names

  /** A mask source: a file readable by fiona, or a Natural Earth feature
      (category, name, scale). */
  datatype Feature = ShapeFile(path: string) | NaturalEarth(category: string, name: string, scale: string)

  /** A geometry held by a mask cache, by its well-known text. */
  datatype Shape = Shape(wkt: string)

  /** One of the three per-name mask caches; `None` means "not computed". */
  type Cache = map<string, Option<Shape>>

  /** The distance part of `haversine(lon1, lat1, lon2, lat2)`, in meters. */
  type Distance = (real, real, real, real) -> real

  /** `rasterio.transform.from_gcps`: the affine transform fitted to a list
      of ground control points. */
  type FromGcps = seq<Gcp> -> Affine

  /** What the product reader gives for one product: the geolocation grid,
      the polarisations, the satellite name, the orbit time stamps (in
      nanoseconds) and the line and pixel spacings of the grid. */
  datatype Product = Product(grid: GeoGrid, pols: seq<string>, satellite: string,
                             timeStamps: seq<int>, lineSpacing: real, sampleSpacing: real)

  /** A closed interval of time stamps (`pd.Interval(..., closed='both')`). */
  datatype Interval = Interval(left: int, right: int)
  {
    predicate Contains(t: int) { left <= t <= right }
  }

  /** The manifest attributes computed when the metadata is opened. The
      coverage is `(line km, sample km)`, the two numbers the coverage text
      shows. */
  datatype Manifest = Manifest(swathType: string, polarizations: seq<string>, productType: string,
                               satellite: string, startDate: int, stopDate: int,
                               footprint: seq<(real, real)>, coverage: (int, int), approxTransform: Affine)

  /** A value returned by `to_dict`. */
  datatype Value =
    | Text(text: string)
    | Texts(texts: seq<string>)
    | Number(number: real)
    | Time(time: int)
    | Corners(corners: seq<(real, real)>)
    | Transform(transform: Affine)
    | Km(lineKm: int, sampleKm: int)
    | Flag(flag: bool)
    | Range(range: Interval)
    | NoneValue

  /** The minimal dictionary of `dict`, from which `from_dict` rebuilds an
      instance. */
  datatype MiniDict = MiniDict(name: string, maskFeaturesRaw: map<string, Feature>,
                               maskFeatures: Cache, maskIntersecting: Cache, maskGeometry: Cache,
                               rasters: seq<string>)

  /** The argument of `to_dict`: the name of a preset key list, or a list of
      keys. */
  datatype KeysArg = Preset(preset: string) | Listed(keys: seq<string>)

  /** The default mask table of the class. */
  const DefaultMasks: map<string, Feature> := map["land" := NaturalEarth("physical", "land", "10m")]

  const MinimalKeys: seq<string> := ["swath", "product", "pols"]

  const AllKeys: seq<string> :=
    MinimalKeys + ["name", "start_date", "stop_date", "footprint", "coverage",
                   "pixel_line_m", "pixel_sample_m", "approx_transform"]

  /** `"%d" % x`: truncation toward zero. */
  function Trunc(x: real): (r: int)
    ensures x >= 0.0 ==> 0.0 <= x - r as real < 1.0
    ensures x < 0.0 ==> 0.0 <= r as real - x < 1.0
  {
    if x >= 0.0 then x.Floor else -((-x).Floor)
  }

  /** `_get_time_range`: the first and the last orbit time stamp; an
      IndexError without time stamps. For a multi-dataset the code takes
      `.values` of a Python list, an AttributeError. */
  function TimeRangeOf(multidataset: bool, timeStamps: seq<int>): (r: Result<Interval>)
    ensures r.Success? <==> !multidataset && |timeStamps| > 0
    ensures multidataset ==> r == Failure(AttributeError("values"))
    ensures !multidataset && |timeStamps| == 0 ==> r == Failure(IndexError)
    ensures r.Success? ==> r.value.left == timeStamps[0] && r.value.right == timeStamps[|timeStamps| - 1]
  {
    if multidataset then Failure(AttributeError("values"))
    else if |timeStamps| == 0 then Failure(IndexError)
    else Success(Interval(timeStamps[0], timeStamps[|timeStamps| - 1]))
  }

  /** Time stamps in increasing order all lie in the time range. */
  lemma {:induction false} TimeRangeCovers(timeStamps: seq<int>)
    requires |timeStamps| > 0
    requires forall i, j :: 0 <= i <= j < |timeStamps| ==> timeStamps[i] <= timeStamps[j]
    ensures TimeRangeOf(false, timeStamps).Success?
    ensures forall i :: 0 <= i < |timeStamps| ==> TimeRangeOf(false, timeStamps).value.Contains(timeStamps[i])
  {
    var r := TimeRangeOf(false, timeStamps).value;
    forall i | 0 <= i < |timeStamps|
      ensures r.Contains(timeStamps[i])
    {
      assert timeStamps[0] <= timeStamps[i];
      assert timeStamps[i] <= timeStamps[|timeStamps| - 1];
    }
  }

  /** `_create_manifest_attrs`: the swath (field 4 of the directory name),
      the polarisations, the product type, the satellite, the dates of the
      time range, the four footprint corners, the coverage from the
      distances along the first row and down the last column, and the
      transform fitted to the ground control points. Each missing piece is
      an IndexError: no field 4, no time stamp, an empty grid. */
  function ManifestOf(names: DatasetName, p: Product, distance: Distance, fromGcps: FromGcps): (r: Result<Manifest>)
    requires WellShaped(p.grid)
    ensures r.Failure? <==> SwathOf(names.path).Failure? || |p.timeStamps| == 0 || !NonEmpty(p.grid)
    ensures r.Failure? ==> r.error == IndexError
    ensures r.Success? ==>
              r.value.swathType == SwathOf(names.path).value &&
              r.value.productType == names.product &&
              Interval(r.value.startDate, r.value.stopDate) == TimeRangeOf(false, p.timeStamps).value &&
              r.value.footprint == Footprint(p.grid).value &&
              r.value.polarizations == p.pols && r.value.satellite == p.satellite &&
              r.value.approxTransform == fromGcps(Gcps(p.grid))
    ensures r.Success? ==>
              var c := r.value.footprint;
              |c| == 4 &&
              r.value.coverage == (Trunc(distance(c[1].0, c[1].1, c[2].0, c[2].1) / 1000.0),
                                   Trunc(distance(c[0].0, c[0].1, c[1].0, c[1].1) / 1000.0))
  {
    var swath :- SwathOf(names.path);
    var range :- TimeRangeOf(false, p.timeStamps);
    var corners :- Footprint(p.grid);
    var sampleMeters := distance(corners[0].0, corners[0].1, corners[1].0, corners[1].1);
    var lineMeters := distance(corners[1].0, corners[1].1, corners[2].0, corners[2].1);
    Success(Manifest(swath, p.pols, names.product, p.satellite, range.left, range.right, corners,
                     (Trunc(lineMeters / 1000.0), Trunc(sampleMeters / 1000.0)), fromGcps(Gcps(p.grid))))
  }

  /** The grid the exact conversion interpolates: the longitudes taken
      `% 360` when the footprint crosses the antimeridian. */
  function ExactGrid(g: GeoGrid, crosses: bool): (r: GeoGrid)
    ensures !crosses ==> r == g
    ensures crosses ==> r == Rewrite(g)
  {
    if crosses then Rewrite(g) else g
  }

  /** `to_dict`'s key list: a preset name is looked up, an unknown one is a
      KeyError. */
  function KeyList(keys: KeysArg): (r: Result<seq<string>>)
    ensures r.Failure? <==> keys.Preset? && keys.preset != "minimal" && keys.preset != "all"
    ensures r.Failure? ==> r.error == KeyError(keys.preset)
    ensures keys.Listed? ==> r == Success(keys.keys)
  {
    match keys
    case Listed(ks) => Success(ks)
    case Preset(p) =>
      if p == "minimal" then Success(MinimalKeys)
      else if p == "all" then Success(AllKeys)
      else Failure(KeyError(p))
  }

  /** The three caches of a fresh minimal dictionary: every name unset. */
  function Cleared(names: set<string>): (c: Cache)
    ensures c.Keys == names && forall k :: k in c ==> c[k] == None
  {
    map k | k in names :: None
  }

  /** `m` is `base` with the entries of `table` whose keys are in `keys`
      written over it. */
  ghost predicate Merged(m: map<string, Feature>, base: map<string, Feature>, table: map<string, Feature>, keys: set<string>)
  {
    keys <= table.Keys &&
    (forall x :: x in m <==> x in base || x in keys) &&
    (forall x :: x in m ==> m[x] == if x in keys then table[x] else base[x])
  }

  /** `c` is `base` with the entries of `keys` set to None. */
  ghost predicate Reset(c: Cache, base: Cache, keys: set<string>)
  {
    (forall x :: x in c <==> x in base || x in keys) &&
    (forall x :: x in c ==> c[x] == if x in keys then None else base[x])
  }

  lemma MergedAll(m: map<string, Feature>, base: map<string, Feature>, table: map<string, Feature>)
    requires Merged(m, base, table, table.Keys)
    ensures m == base + table
  {
    assert m.Keys == (base + table).Keys;
  }

  lemma ResetAll(c: Cache, base: Cache, keys: set<string>)
    requires Reset(c, base, keys)
    ensures c == base + Cleared(keys)
  {
    assert c.Keys == (base + Cleared(keys)).Keys;
  }

  lemma EmptyUnion(table: map<string, Feature>, cache: Cache)
    ensures map[] + table == table && map[] + cache == cache
  {
    assert (map[] + table).Keys == table.Keys;
    assert (map[] + cache).Keys == cache.Keys;
  }

  /** What `from_dict` checks for one mask name, in its order: the geometry
      entry must exist (KeyError) and be None (AssertionError), then the
      same for the feature entry. */
  function CheckName(md: MiniDict, k: string): (e: Option<Error>)
    ensures e.None? <==> k in md.maskGeometry && md.maskGeometry[k] == None &&
                         k in md.maskFeatures && md.maskFeatures[k] == None
    ensures e.Some? ==> e.value == KeyError(k) || e.value == AssertionError
  {
    if k !in md.maskGeometry then Some(KeyError(k))
    else if md.maskGeometry[k] != None then Some(AssertionError)
    else if k !in md.maskFeatures then Some(KeyError(k))
    else if md.maskFeatures[k] != None then Some(AssertionError)
    else None
  }

  /** A minimal dictionary `from_dict` accepts. */
  predicate Clean(md: MiniDict)
  {
    forall k :: k in md.maskFeaturesRaw ==> CheckName(md, k).None?
  }

  /** The dictionary `dict` builds is always accepted back. */
  lemma DictIsClean(name: string, raw: map<string, Feature>, rasters: seq<string>)
    ensures Clean(MiniDict(name, raw, Cleared(raw.Keys), Cleared(raw.Keys), Cleared(raw.Keys), rasters))
  {
  }

  /** The class-level state shared by new instances: the default mask table
      and the (empty) raster table. */
  class Defaults {
    var maskFeaturesRaw: map<string, Feature>
    var rasters: seq<string>

    constructor()
      ensures maskFeaturesRaw == DefaultMasks && rasters == []
    {
      maskFeaturesRaw := DefaultMasks;
      rasters := [];
    }

    /** `set_mask_feature` called on the class: only the raw table changes;
        the class has no caches to reset. */
    method SetMaskFeature(name: string, feature: Feature)
      modifies this
      ensures maskFeaturesRaw == old(maskFeaturesRaw)[name := feature]
      ensures rasters == old(rasters)
    {
      maskFeaturesRaw := maskFeaturesRaw[name := feature];
    }
  }

  class Meta {
    const shortName: string
    const path: string
    const safe: string
    const product: string
    const multidataset: bool
    const manifest: Manifest
    /** The geolocation grid as read. */
    const loaded: GeoGrid
    /** `cross_antemeridian` of the grid as read. */
    const crossesAntimeridian: bool
    const lineSpacing: real
    const sampleSpacing: real
    const timeStamps: seq<int>
    const interp: Interp
    const toLon180: real -> real
    const bearing: Bearing

    var name: string
    /** The geolocation grid, whose longitudes the exact conversion may
        rewrite in place. */
    var geoloc: GeoGrid
    var maskFeaturesRaw: map<string, Feature>
    var maskFeatures: Cache
    var maskIntersecting: Cache
    var maskGeometry: Cache
    var rasters: seq<string>
    var timeRange: Option<Interval>

    /** The grid is non-empty and is the grid as read or its `% 360`
        rewrite (only when it crosses the antimeridian); every mask name has
        a feature and a geometry cache entry; the time range is cached. */
    predicate Valid()
      reads this
    {
      WellShaped(loaded) && NonEmpty(loaded) &&
      crossesAntimeridian == CrossesAntimeridian(loaded) &&
      (geoloc == loaded || (crossesAntimeridian && geoloc == Rewrite(loaded))) &&
      !multidataset &&
      (forall k :: k in maskFeaturesRaw ==> k in maskFeatures && k in maskGeometry) &&
      timeRange == Some(Interval(manifest.startDate, manifest.stopDate))
    }

    /** `__init__`: the names from the identifier, the manifest attributes
        (which fill the time-range cache), empty mask tables filled from the
        class defaults through `set_mask_feature`, and the class rasters. */
    constructor(name: string, p: Product, defaults: Defaults, interp: Interp, toLon180: real -> real,
                bearing: Bearing, distance: Distance, fromGcps: FromGcps)
      requires WellShaped(p.grid)
      requires ManifestOf(ParseName(name), p, distance, fromGcps).Success?
      ensures Valid()
      ensures var names := ParseName(name);
              this.name == names.name && shortName == names.shortName && path == names.path &&
              safe == names.safe && product == names.product
      ensures manifest == ManifestOf(ParseName(name), p, distance, fromGcps).value
      ensures loaded == p.grid && geoloc == p.grid && timeStamps == p.timeStamps
      ensures lineSpacing == p.lineSpacing && sampleSpacing == p.sampleSpacing
      ensures this.interp == interp && this.toLon180 == toLon180 && this.bearing == bearing
      ensures maskFeaturesRaw == defaults.maskFeaturesRaw
      ensures maskFeatures == Cleared(defaults.maskFeaturesRaw.Keys)
      ensures maskIntersecting == Cleared(defaults.maskFeaturesRaw.Keys)
      ensures maskGeometry == Cleared(defaults.maskFeaturesRaw.Keys)
      ensures rasters == defaults.rasters
    {
      var names := ParseName(name);
      var m := ManifestOf(names, p, distance, fromGcps).value;
      this.name := names.name;
      shortName := names.shortName;
      path := names.path;
      safe := names.safe;
      product := names.product;
      multidataset := false;
      loaded := p.grid;
      geoloc := p.grid;
      crossesAntimeridian := CrossesAntimeridian(p.grid);
      manifest := m;
      timeRange := Some(Interval(m.startDate, m.stopDate));
      lineSpacing := p.lineSpacing;
      sampleSpacing := p.sampleSpacing;
      timeStamps := p.timeStamps;
      this.interp := interp;
      this.toLon180 := toLon180;
      this.bearing := bearing;
      maskFeaturesRaw := map[];
      maskFeatures := map[];
      maskIntersecting := map[];
      maskGeometry := map[];
      rasters := [];
      new;
      var table := defaults.maskFeaturesRaw;
      SetMaskFeatures(table);
      EmptyUnion(table, Cleared(table.Keys));
      rasters := defaults.rasters;
    }

    /** `set_mask_feature` for every entry of `table`, as `__init__` does
        with the class defaults. */
    method SetMaskFeatures(table: map<string, Feature>)
      modifies this
      ensures maskFeaturesRaw == old(maskFeaturesRaw) + table
      ensures maskFeatures == old(maskFeatures) + Cleared(table.Keys)
      ensures maskIntersecting == old(maskIntersecting) + Cleared(table.Keys)
      ensures maskGeometry == old(maskGeometry) + Cleared(table.Keys)
      ensures this.name == old(this.name) && geoloc == old(geoloc) && rasters == old(rasters)
      ensures timeRange == old(timeRange)
    {
      var raw0, features0, intersecting0, geometry0 := maskFeaturesRaw, maskFeatures, maskIntersecting, maskGeometry;
      var todo := table.Keys;
      var done: set<string> := {};
      while todo != {}
        invariant todo <= table.Keys && done == table.Keys - todo
        invariant Merged(maskFeaturesRaw, raw0, table, done)
        invariant Reset(maskFeatures, features0, done)
        invariant Reset(maskIntersecting, intersecting0, done)
        invariant Reset(maskGeometry, geometry0, done)
        invariant this.name == old(this.name) && geoloc == old(geoloc) && rasters == old(rasters)
        invariant timeRange == old(timeRange)
        decreases todo
      {
        var k :| k in todo;
        SetMaskFeature(k, table[k]);
        todo := todo - {k};
        done := done + {k};
      }
      MergedAll(maskFeaturesRaw, raw0, table);
      ResetAll(maskFeatures, features0, table.Keys);
      ResetAll(maskIntersecting, intersecting0, table.Keys);
      ResetAll(maskGeometry, geometry0, table.Keys);
    }

    /** `set_mask_feature` called on an instance: the feature is stored and
        the three caches of that name are reset. */
    method SetMaskFeature(name: string, feature: Feature)
      modifies this
      ensures maskFeaturesRaw == old(maskFeaturesRaw)[name := feature]
      ensures maskFeatures == old(maskFeatures)[name := None]
      ensures maskIntersecting == old(maskIntersecting)[name := None]
      ensures maskGeometry == old(maskGeometry)[name := None]
      ensures this.name == old(this.name) && geoloc == old(geoloc) && rasters == old(rasters)
      ensures timeRange == old(timeRange)
      ensures old(Valid()) ==> Valid()
    {
      maskFeaturesRaw := maskFeaturesRaw[name := feature];
      maskIntersecting := maskIntersecting[name := None];
      maskGeometry := maskGeometry[name := None];
      maskFeatures := maskFeatures[name := None];
    }

    /** Opening a product: the errors of `__init__` (an IndexError for a
        directory name without field 4, a product without time stamps, or an
        empty grid), otherwise a new instance. */
    static method Open(name: string, p: Product, defaults: Defaults, interp: Interp, toLon180: real -> real,
                       bearing: Bearing, distance: Distance, fromGcps: FromGcps) returns (r: Result<Meta>)
      requires WellShaped(p.grid)
      ensures r.Failure? <==> ManifestOf(ParseName(name), p, distance, fromGcps).Failure?
      ensures r.Failure? ==> r.error == IndexError
      ensures r.Success? ==>
                var o := r.value;
                var names := ParseName(name);
                fresh(o) && o.Valid() &&
                o.name == names.name && o.path == names.path && o.product == names.product &&
                o.manifest == ManifestOf(names, p, distance, fromGcps).value &&
                o.loaded == p.grid && o.geoloc == p.grid && o.timeStamps == p.timeStamps &&
                o.interp == interp && o.toLon180 == toLon180 && o.bearing == bearing &&
                o.maskFeaturesRaw == defaults.maskFeaturesRaw &&
                o.maskFeatures == Cleared(defaults.maskFeaturesRaw.Keys) &&
                o.maskIntersecting == Cleared(defaults.maskFeaturesRaw.Keys) &&
                o.maskGeometry == Cleared(defaults.maskFeaturesRaw.Keys) &&
                o.rasters == defaults.rasters
    {
      var m := ManifestOf(ParseName(name), p, distance, fromGcps);
      if m.Failure? {
        return Failure(m.error);
      }
      var o := new Meta(name, p, defaults, interp, toLon180, bearing, distance, fromGcps);
      return Success(o);
    }

    /** `dict`: the name, the raw mask table, the three caches with every
        mask name unset, and the rasters. */
    method Dict() returns (d: MiniDict)
      ensures d == MiniDict(name, maskFeaturesRaw, Cleared(maskFeaturesRaw.Keys), Cleared(maskFeaturesRaw.Keys),
                            Cleared(maskFeaturesRaw.Keys), rasters)
      ensures Clean(d)
    {
      var features: Cache := map[];
      var intersecting: Cache := map[];
      var geometry: Cache := map[];
      var todo := maskFeaturesRaw.Keys;
      while todo != {}
        invariant todo <= maskFeaturesRaw.Keys
        invariant features == Cleared(maskFeaturesRaw.Keys - todo)
        invariant intersecting == Cleared(maskFeaturesRaw.Keys - todo)
        invariant geometry == Cleared(maskFeaturesRaw.Keys - todo)
        decreases todo
      {
        var k :| k in todo;
        intersecting := intersecting[k := None];
        geometry := geometry[k := None];
        features := features[k := None];
        todo := todo - {k};
        assert maskFeaturesRaw.Keys - todo == (maskFeaturesRaw.Keys - (todo + {k})) + {k};
      }
      assert maskFeaturesRaw.Keys - todo == maskFeaturesRaw.Keys;
      d := MiniDict(name, maskFeaturesRaw, features, intersecting, geometry, rasters);
      DictIsClean(name, maskFeaturesRaw, rasters);
    }

    /** The checks of `from_dict`, name after name (in an order not
        modelled): the error of the first offending name, if any. */
    static method CheckMiniDict(md: MiniDict) returns (e: Option<Error>)
      ensures e.None? <==> Clean(md)
      ensures e.Some? ==> exists k :: k in md.maskFeaturesRaw && CheckName(md, k) == e
    {
      var todo := md.maskFeaturesRaw.Keys;
      while todo != {}
        invariant todo <= md.maskFeaturesRaw.Keys
        invariant forall k :: k in md.maskFeaturesRaw && k !in todo ==> CheckName(md, k).None?
        decreases todo
      {
        var k :| k in todo;
        if k !in md.maskGeometry {
          return Some(KeyError(k));
        }
        if md.maskGeometry[k] != None {
          return Some(AssertionError);
        }
        if k !in md.maskFeatures {
          return Some(KeyError(k));
        }
        if md.maskFeatures[k] != None {
          return Some(AssertionError);
        }
        todo := todo - {k};
      }
      return None;
    }

    /** `from_dict`: every mask name must have unset geometry and feature
        entries (the first offending name, in an order not modelled, raises
        KeyError or AssertionError); then a new instance is opened from the
        dictionary's name and the dictionary's entries replace its own. */
    static method FromDict(md: MiniDict, p: Product, defaults: Defaults, interp: Interp, toLon180: real -> real,
                           bearing: Bearing, distance: Distance, fromGcps: FromGcps) returns (r: Result<Meta>)
      requires WellShaped(p.grid)
      ensures !Clean(md) ==> r.Failure? && exists k :: k in md.maskFeaturesRaw && CheckName(md, k) == Some(r.error)
      ensures Clean(md) ==> (r.Success? <==> ManifestOf(ParseName(md.name), p, distance, fromGcps).Success?)
      ensures Clean(md) && r.Failure? ==> r.error == IndexError
      ensures r.Success? ==>
                var o := r.value;
                fresh(o) && o.Valid() &&
                o.name == md.name && o.path == ParseName(md.name).path &&
                o.maskFeaturesRaw == md.maskFeaturesRaw && o.maskFeatures == md.maskFeatures &&
                o.maskIntersecting == md.maskIntersecting && o.maskGeometry == md.maskGeometry &&
                o.rasters == md.rasters
    {
      var e := CheckMiniDict(md);
      if e.Some? {
        return Failure(e.value);
      }
      var made := Open(md.name, p, defaults, interp, toLon180, bearing, distance, fromGcps);
      if made.Failure? {
        return Failure(made.error);
      }
      var o := made.value;
      o.Update(md);
      return Success(o);
    }

    /** `new.__dict__.update(minidict)`: the name, the mask tables and the
        rasters of an accepted dictionary replace the instance's own. */
    method Update(md: MiniDict)
      requires Valid() && Clean(md)
      modifies this
      ensures name == md.name && rasters == md.rasters
      ensures maskFeaturesRaw == md.maskFeaturesRaw && maskFeatures == md.maskFeatures
      ensures maskIntersecting == md.maskIntersecting && maskGeometry == md.maskGeometry
      ensures geoloc == old(geoloc) && timeRange == old(timeRange)
      ensures Valid()
    {
      name := md.name;
      maskFeaturesRaw := md.maskFeaturesRaw;
      maskFeatures := md.maskFeatures;
      maskIntersecting := md.maskIntersecting;
      maskGeometry := md.maskGeometry;
      rasters := md.rasters;
    }

    /** `pols`: the polarisations separated by spaces. */
    function Pols(): string
      reads this
    {
      Join(manifest.polarizations, ' ')
    }

    /** `swath` */
    function Swath(): string
      reads this
    {
      manifest.swathType
    }

    /** The attributes `to_dict` finds with `hasattr`; other attributes of
        the object are not modelled. */
    function Attribute(k: string): (v: Option<Value>)
      reads this
      requires Valid()
    {
      match k
      case "name" => Some(Text(name))
      case "short_name" => Some(Text(shortName))
      case "path" => Some(Text(path))
      case "safe" => Some(Text(safe))
      case "product" => Some(Text(product))
      case "multidataset" => Some(Flag(multidataset))
      case "swath" => Some(Text(Swath()))
      case "pols" => Some(Text(Pols()))
      case "footprint" => Some(Corners(manifest.footprint))
      case "approx_transform" => Some(Transform(manifest.approxTransform))
      case "pixel_line_m" => Some(if multidataset then NoneValue else Number(lineSpacing))
      case "pixel_sample_m" => Some(if multidataset then NoneValue else Number(sampleSpacing))
      case "time_range" => Some(Range(timeRange.value))
      case "start_date" => Some(Time(timeRange.value.left))
      case "stop_date" => Some(Time(timeRange.value.right))
      case "cross_antemeridian" => Some(Flag(CrossesAntimeridian(geoloc)))
      case "rasters" => Some(Texts(rasters))
      case "manifest" => Some(NoneValue)
      case _ => None
    }

    /** The keys of `manifest_attrs`. */
    function ManifestAttr(k: string): Option<Value>
      reads this
    {
      match k
      case "swath_type" => Some(Text(manifest.swathType))
      case "polarizations" => Some(Texts(manifest.polarizations))
      case "product_type" => Some(Text(manifest.productType))
      case "satellite" => Some(Text(manifest.satellite))
      case "start_date" => Some(Time(manifest.startDate))
      case "stop_date" => Some(Time(manifest.stopDate))
      case "footprints" => Some(Corners(manifest.footprint))
      case "coverage" => Some(Km(manifest.coverage.0, manifest.coverage.1))
      case "approx_transform" => Some(Transform(manifest.approxTransform))
      case _ => None
    }

    /** How `to_dict` resolves one key: an attribute first, then a manifest
        attribute. */
    function Lookup(k: string): (v: Option<Value>)
      reads this
      requires Valid()
    {
      if Attribute(k).Some? then Attribute(k) else ManifestAttr(k)
    }

    /** Every key of the `'all'` list, and so of the `'minimal'` list,
        resolves: `coverage` from the manifest, the others as attributes. */
    lemma AllKeysResolve()
      requires Valid()
      ensures forall i :: 0 <= i < |AllKeys| ==> Lookup(AllKeys[i]).Some?
      ensures forall i :: 0 <= i < |MinimalKeys| ==> MinimalKeys[i] == AllKeys[i]
      ensures Attribute("coverage").None? && Lookup("coverage") == Some(Km(manifest.coverage.0, manifest.coverage.1))
      ensures Lookup("start_date") == Some(Time(manifest.startDate)) && Lookup("stop_date") == Some(Time(manifest.stopDate))
    {
      forall i | 0 <= i < |AllKeys|
        ensures Lookup(AllKeys[i]).Some?
      {
        var k := AllKeys[i];
        assert k in {"swath", "product", "pols", "name", "start_date", "stop_date", "footprint", "coverage",
                     "pixel_line_m", "pixel_sample_m", "approx_transform"};
      }
    }

    /** The polarisations are the space-separated pieces of `pols`. */
    lemma PolsSplit()
      requires |manifest.polarizations| >= 1
      requires forall i :: 0 <= i < |manifest.polarizations| ==> ' ' !in manifest.polarizations[i]
      ensures Split(Pols(), ' ') == manifest.polarizations
    {
      SplitJoin(manifest.polarizations, ' ');
    }

    /** `to_dict(keys)`: the value of every key, the first key found neither
        as an attribute nor in the manifest raising KeyError. */
    method ToDict(keys: KeysArg) returns (r: Result<map<string, Value>>)
      requires Valid()
      ensures KeyList(keys).Failure? ==> r == Failure(KeyList(keys).error)
      ensures KeyList(keys).Success? ==>
                var ks := KeyList(keys).value;
                (r.Success? <==> forall i :: 0 <= i < |ks| ==> Lookup(ks[i]).Some?) &&
                (r.Failure? ==> exists i :: 0 <= i < |ks| && Lookup(ks[i]).None? &&
                                  (forall j :: 0 <= j < i ==> Lookup(ks[j]).Some?) && r.error == KeyError(ks[i])) &&
                (r.Success? ==> r.value.Keys == (set i | 0 <= i < |ks| :: ks[i]) &&
                                forall i :: 0 <= i < |ks| ==> r.value[ks[i]] == Lookup(ks[i]).value)
      ensures keys == Preset("all") || keys == Preset("minimal") ==> r.Success?
    {
      AllKeysResolve();
      var list := KeyList(keys);
      if list.Failure? {
        return Failure(list.error);
      }
      var ks := list.value;
      var res: map<string, Value> := map[];
      var i := 0;
      while i < |ks|
        invariant 0 <= i <= |ks|
        invariant forall j :: 0 <= j < i ==> Lookup(ks[j]).Some?
        invariant res.Keys == set j | 0 <= j < i :: ks[j]
        invariant forall j :: 0 <= j < i ==> res[ks[j]] == Lookup(ks[j]).value
      {
        var k := ks[i];
        var attr := Attribute(k);
        if attr.Some? {
          res := res[k := attr.value];
        } else {
          var m := ManifestAttr(k);
          if m.Some? {
            res := res[k := m.value];
          } else {
            return Failure(KeyError(k));
          }
        }
        i := i + 1;
      }
      return Success(res);
    }

    /** `time_range`: the cached interval, computed and cached on first
        use. */
    method TimeRange() returns (r: Result<Interval>)
      modifies this
      ensures old(timeRange).Some? ==> r == Success(old(timeRange).value) && timeRange == old(timeRange)
      ensures old(timeRange).None? ==> r == TimeRangeOf(multidataset, timeStamps)
      ensures old(timeRange).None? ==> timeRange == (if r.Success? then Some(r.value) else None)
      ensures name == old(name) && geoloc == old(geoloc) && rasters == old(rasters)
      ensures maskFeaturesRaw == old(maskFeaturesRaw) && maskFeatures == old(maskFeatures)
      ensures maskIntersecting == old(maskIntersecting) && maskGeometry == old(maskGeometry)
      ensures old(Valid()) ==> Valid()
    {
      if timeRange.Some? {
        return Success(timeRange.value);
      }
      r := TimeRangeOf(multidataset, timeStamps);
      if r.Success? {
        timeRange := Some(r.value);
      }
    }

    /** Where the values of a conversion come from, with the longitude
        rewrite decided once, on the grid as read. */
    function Src(approx: bool): Source
      reads this
    {
      if approx then Approx(manifest.approxTransform) else Exact(interp, ExactGrid(loaded, crossesAntimeridian))
    }

    /** `coords2ll(lines, samples, to_grid, approx)`, with the antimeridian
        test taken on the grid as read. The exact conversion rewrites the
        stored longitudes `% 360` when the footprint crosses the
        antimeridian; repeated conversions leave them rewritten once. */
    method CoordsToLonLat(lines: Arg, samples: Arg, toGrid: bool, approx: bool) returns (r: Result<Shaped<(real, real)>>)
      requires Valid()
      modifies this
      ensures r == LonLatSpec(Src(approx), crossesAntimeridian, toLon180, lines, samples, toGrid)
      ensures !approx ==> geoloc == ExactGrid(loaded, crossesAntimeridian)
      ensures approx ==> geoloc == old(geoloc)
      ensures name == old(name) && rasters == old(rasters) && timeRange == old(timeRange)
      ensures maskFeaturesRaw == old(maskFeaturesRaw) && maskFeatures == old(maskFeatures)
      ensures maskIntersecting == old(maskIntersecting) && maskGeometry == old(maskGeometry)
      ensures Valid()
    {
      if !approx && crossesAntimeridian {
        RewriteIdempotent(loaded);
        geoloc := Rewrite(geoloc);
      }
      r := LonLatSpec(Src(approx), crossesAntimeridian, toLon180, lines, samples, toGrid);
    }

    /** `coords2ll` as written: the exact conversion rewrites the stored
        longitudes `% 360` when the current grid crosses the antimeridian,
        and the test that decides whether `to_lon180` is applied is then
        taken again, on the rewritten grid. */
    method CoordsToLonLatAsWritten(lines: Arg, samples: Arg, toGrid: bool, approx: bool) returns (r: Result<Shaped<(real, real)>>)
      requires Valid()
      modifies this
      ensures geoloc == (if !approx && CrossesAntimeridian(old(geoloc)) then Rewrite(old(geoloc)) else old(geoloc))
      ensures WellShaped(geoloc) && NonEmpty(geoloc)
      ensures var src := if approx then Approx(manifest.approxTransform) else Exact(interp, geoloc);
              r == LonLatSpec(src, CrossesAntimeridian(geoloc), toLon180, lines, samples, toGrid)
      ensures name == old(name) && rasters == old(rasters) && timeRange == old(timeRange)
      ensures maskFeaturesRaw == old(maskFeaturesRaw) && maskFeatures == old(maskFeatures)
      ensures maskIntersecting == old(maskIntersecting) && maskGeometry == old(maskGeometry)
      ensures Valid()
    {
      if !approx && CrossesAntimeridian(geoloc) {
        RewriteIdempotent(loaded);
        geoloc := Rewrite(geoloc);
      }
      var src := if approx then Approx(manifest.approxTransform) else Exact(interp, geoloc);
      r := LonLatSpec(src, CrossesAntimeridian(geoloc), toLon180, lines, samples, toGrid);
    }

    /** `ll2coords(lon, lat)`: the approximate inverse (a degenerate
        transform cannot be inverted), one exact forward conversion of the
        estimate, and one correction. The exact conversion rewrites the
        stored longitudes as `coords2ll` does, once the inversion has
        succeeded. */
    method LonLatToCoords(lon: Arg, lat: Arg) returns (r: Result<Shaped<(real, real)>>)
      requires Valid()
      modifies this
      ensures r == LonLatToCoordsSpec(manifest.approxTransform, Src(false), crossesAntimeridian, toLon180, lon, lat)
      ensures geoloc == (if r.Success? then ExactGrid(loaded, crossesAntimeridian) else old(geoloc))
      ensures name == old(name) && rasters == old(rasters) && timeRange == old(timeRange)
      ensures maskFeaturesRaw == old(maskFeaturesRaw) && maskFeatures == old(maskFeatures)
      ensures maskIntersecting == old(maskIntersecting) && maskGeometry == old(maskGeometry)
      ensures Valid()
    {
      r := LonLatToCoordsSpec(manifest.approxTransform, Src(false), crossesAntimeridian, toLon180, lon, lat);
      if r.Success? && crossesAntimeridian {
        RewriteIdempotent(loaded);
        geoloc := Rewrite(geoloc);
      }
    }

    /** `coords2heading(lines, samples, to_grid, approx)`: the bearing from
        the conversion one line before to the conversion one line after. */
    method CoordsToHeading(lines: Arg, samples: Arg, toGrid: bool, approx: bool) returns (r: Result<Shaped<real>>)
      requires Valid()
      modifies this
      ensures r == HeadingSpec(Src(approx), crossesAntimeridian, toLon180, bearing, lines, samples, toGrid)
      ensures !approx ==> geoloc == ExactGrid(loaded, crossesAntimeridian)
      ensures approx ==> geoloc == old(geoloc)
      ensures name == old(name) && rasters == old(rasters) && timeRange == old(timeRange)
      ensures maskFeaturesRaw == old(maskFeaturesRaw) && maskFeatures == old(maskFeatures)
      ensures maskIntersecting == old(maskIntersecting) && maskGeometry == old(maskGeometry)
      ensures Valid()
    {
      ghost var src := Src(approx);
      ghost var h := HeadingSpec(src, crossesAntimeridian, toLon180, bearing, lines, samples, toGrid);
      ghost var before := LonLatSpec(src, crossesAntimeridian, toLon180, LonLatMapping.Shift(lines, -1.0), samples, toGrid);
      ghost var after := LonLatSpec(src, crossesAntimeridian, toLon180, LonLatMapping.Shift(lines, 1.0), samples, toGrid);
      HeadingComposes(src, crossesAntimeridian, toLon180, bearing, lines, samples, toGrid);
      var first := CoordsToLonLat(LonLatMapping.Shift(lines, -1.0), samples, toGrid, approx);
      assert first == before;
      if first.Failure? {
        return Failure(first.error);
      }
      var second := CoordsToLonLat(LonLatMapping.Shift(lines, 1.0), samples, toGrid, approx);
      assert second == after;
      r := Success(Zip(first.value, second.value, bearing));
      assert r == h;
    }
  }

  /** A grid of two lines and two pixels (the fewest a linear spline can
      be built on) whose longitudes, -179 and 179 on each line, lie on both
      sides of the antimeridian. */
  function StraddlingGrid(): (g: GeoGrid)
    ensures WellShaped(g) && NonEmpty(g)
    ensures |g.lines| == 2 && |g.pixels| == 2
  {
    GeoGrid([0.0, 1.0], [0.0, 1.0], [[-179.0, 179.0], [-179.0, 179.0]], [[0.0, 0.0], [0.0, 0.0]], [[0.0, 0.0], [0.0, 0.0]])
  }

  /** The interpolation gives back the longitude and latitude of every
      node of `g`, as a linear spline does. */
  predicate ReproducesNodes(interp: Interp, g: GeoGrid)
    requires WellShaped(g)
  {
    forall i, j :: 0 <= i < |g.lines| && 0 <= j < |g.pixels| ==>
      interp(g.lines, g.pixels, g.lon, g.lines[i], g.pixels[j]) == g.lon[i][j] &&
      interp(g.lines, g.pixels, g.lat, g.lines[i], g.pixels[j]) == g.lat[i][j]
  }

  /** The interpolation at one node of a grid it reproduces. */
  lemma NodeReproduced(interp: Interp, g: GeoGrid, i: nat, j: nat)
    requires WellShaped(g) && ReproducesNodes(interp, g)
    requires i < |g.lines| && j < |g.pixels|
    ensures interp(g.lines, g.pixels, g.lon, g.lines[i], g.pixels[j]) == g.lon[i][j]
    ensures interp(g.lines, g.pixels, g.lat, g.lines[i], g.pixels[j]) == g.lat[i][j]
  {
  }

  /** Node (0, 0) of the rewritten straddling grid converts, without
      `to_lon180`, to longitude 181. */
  lemma RewrittenNodeZero(interp: Interp, toLon180: real -> real)
    requires ReproducesNodes(interp, Rewrite(StraddlingGrid()))
    ensures Forward(Exact(interp, Rewrite(StraddlingGrid())), false, toLon180, 0.0, 0.0) == (181.0, 0.0)
  {
    var g := Rewrite(StraddlingGrid());
    StraddlingRewritten();
    NodeReproduced(interp, g, 0, 0);
  }

  /** As written, the antimeridian test is taken again after the rewrite:
      the straddling grid crosses, its rewrite no longer does, so the exact
      conversion of node (0, 0) returns longitude 181, outside [-180, 180),
      instead of -179. */
  lemma AntimeridianLostAsWritten(interp: Interp, toLon180: real -> real)
    requires ReproducesNodes(interp, Rewrite(StraddlingGrid()))
    ensures CrossesAntimeridian(StraddlingGrid())
    ensures !CrossesAntimeridian(Rewrite(StraddlingGrid()))
    ensures var g := Rewrite(StraddlingGrid());
            LonLatSpec(Exact(interp, g), CrossesAntimeridian(g), toLon180, Scalar(0.0), Scalar(0.0), false)
              == Success(One((181.0, 0.0)))
  {
    StraddlingCrosses();
    StraddlingRewritten();
    RewrittenNodeZero(interp, toLon180);
    ScalarInScalarOut(Exact(interp, Rewrite(StraddlingGrid())), false, toLon180, 0.0, 0.0, false);
  }

  lemma StraddlingCrosses()
    ensures CrossesAntimeridian(StraddlingGrid())
  {
    var g0 := StraddlingGrid();
    CrossesIff(g0);
    assert g0.lon[0][1] - g0.lon[0][0] > 180.0;
  }

  /** The rewrite of the straddling grid: longitudes 181 and 179, no
      longer crossing. */
  lemma StraddlingRewritten()
    ensures Rewrite(StraddlingGrid()) ==
              GeoGrid([0.0, 1.0], [0.0, 1.0], [[181.0, 179.0], [181.0, 179.0]], [[0.0, 0.0], [0.0, 0.0]], [[0.0, 0.0], [0.0, 0.0]])
    ensures !CrossesAntimeridian(Rewrite(StraddlingGrid()))
  {
    var g0 := StraddlingGrid();
    assert Mod360(-179.0) == 181.0 by {
      var r := Mod360(-179.0);
      var k := (-179.0 - r) / 360.0;
      assert k.Floor as real == k;
      assert -1.0 <= k < 0.0;
    }
    assert Mod360(179.0) == 179.0;
    var row := Mod360Row(g0.lon[0]);
    assert row == [181.0, 179.0];
    assert Mod360Row(g0.lon[1]) == row;
    var g := Rewrite(g0);
    assert g.lon == [row, row];
    CrossesIff(g);
  }

  /** With the test taken once, on the grid as read, the exact conversion
      of any node gives back that node's longitude and latitude, whether
      or not the grid crosses the antimeridian, when the longitudes lie in
      [-180, 180) and `to_lon180` undoes the `% 360` there. */
  lemma {:induction false} ExactNodesKeepLongitude(g: GeoGrid, interp: Interp, toLon180: real -> real, i: nat, j: nat)
    requires WellShaped(g) && NonEmpty(g)
    requires forall a, b :: 0 <= a < |g.lines| && 0 <= b < |g.pixels| ==> -180.0 <= g.lon[a][b] < 180.0
    requires ReproducesNodes(interp, ExactGrid(g, CrossesAntimeridian(g)))
    requires forall x :: -180.0 <= x < 180.0 ==> toLon180(Mod360(x)) == x
    requires i < |g.lines| && j < |g.pixels|
    ensures Forward(Exact(interp, ExactGrid(g, CrossesAntimeridian(g))), CrossesAntimeridian(g), toLon180, g.lines[i], g.pixels[j])
              == (g.lon[i][j], g.lat[i][j])
  {
    var c := CrossesAntimeridian(g);
    var e := ExactGrid(g, c);
    assert e.lines == g.lines && e.pixels == g.pixels && e.lat == g.lat;
    assert interp(e.lines, e.pixels, e.lon, e.lines[i], e.pixels[j]) == e.lon[i][j];
    assert interp(e.lines, e.pixels, e.lat, e.lines[i], e.pixels[j]) == e.lat[i][j];
    if c {
      assert e.lon[i][j] == Mod360(g.lon[i][j]);
      assert toLon180(Mod360(g.lon[i][j])) == g.lon[i][j];
    }
  }

  /** On the straddling grid, the corrected conversion of node (0, 0)
      gives -179 back. */
  lemma AntimeridianKeptCorrected(interp: Interp, toLon180: real -> real)
    requires ReproducesNodes(interp, Rewrite(StraddlingGrid()))
    requires forall x :: -180.0 <= x < 180.0 ==> toLon180(Mod360(x)) == x
    ensures var g0 := StraddlingGrid();
            var c := CrossesAntimeridian(g0);
            LonLatSpec(Exact(interp, ExactGrid(g0, c)), c, toLon180, Scalar(0.0), Scalar(0.0), false)
              == Success(One((-179.0, 0.0)))
  {
    var g0 := StraddlingGrid();
    StraddlingCrosses();
    var c := CrossesAntimeridian(g0);
    assert ExactGrid(g0, c) == Rewrite(g0);
    forall a, b | 0 <= a < |g0.lines| && 0 <= b < |g0.pixels|
      ensures -180.0 <= g0.lon[a][b] < 180.0
    {
    }
    ExactNodesKeepLongitude(g0, interp, toLon180, 0, 0);
    ScalarInScalarOut(Exact(interp, ExactGrid(g0, c)), c, toLon180, 0.0, 0.0, false);
  }
}
