# xsar calibration and RadarSat-2 metadata, in Dafny

xsar reads Level-1 synthetic aperture radar products. This project models two
of its components and proves properties of them. Numbers are reals and NaN is
`None`. The numerical libraries the code calls are parameters of the model
(the spline interpolator, `to_lon180`, `haversine`, `from_gcps`, `np.sqrt`).

**Sentinel-1 dataset** (`src/xsar/sentinel1_dataset.py`)

- Calibration of digital numbers, pixel by pixel, as in the ESA scheme
  "Radiometric calibration of Level-1 products":
  - `sigma0_raw`/`gamma0_raw` = |dn|²/lut², with non-positive values made NaN.
  - The noise equivalents `nesz`/`negz` = noise_lut/lut².
  - The reverse calibration sqrt(v·lut²).
- The two-step LUT lookup and its errors.
- The constructor's sequence (modules `Calibration`, `SentinelDataset`):
  1. `noise_lut` = range × azimuth, when both exist.
  2. The merge of visible or all LUTs.
  3. The calibration stage loop, which skips a variable whose LUT is missing.
  4. `_add_denoised`: an alias, an error, or raw − noise clipped at 0.
- The `dataset` setter and its sticky `sliced` flag.
- The naming of the LUT blocks read from the xml files (`LutLoading`).
- The normalisation of the chunk sizes (`Chunks`).
- The padded bounding box, the regular-spacing test, and the snapping of
  converted coordinates to the dataset grid (`DatasetGeometry`).

**RadarSat-2 metadata** (`src/xsar/radarsat2_meta.py`)

- Parsing of the `RADARSAT2_DS:<path>:<subdataset>` identifier
  (`RadarSat2Names`).
- The manifest attributes: swath, dates, footprint corners, coverage, and the
  ground control points of the approximate transform (`Geolocation`,
  `RadarSat2.ManifestOf`).
- The antimeridian test and the `% 360` rewrite of the grid.
- Image↔ground conversion (`LonLatMapping`, `AffineMap`):
  - `coords2ll` through the affine transform or the exact interpolator, with
    the scalar, array and `to_grid` shapes.
  - `ll2coords` with its single correction pass.
  - `coords2heading`.
- The metadata object `RadarSat2.Meta`:
  - Its mask tables and `set_mask_feature`.
  - `dict`/`from_dict`.
  - `to_dict`.
  - The memoised `time_range`.

`ll2coords` of the Sentinel-1 dataset makes every point NaN as soon as one
of them, on either dimension, is out of tolerance
(`src/xsar/sentinel1_dataset.py:297-306`), not only the offending point
(`DatasetGeometry.SnapAllOrNothing`).

## Model

| member | source | states |
|---|---|---|
| Common.Split | src/xsar/radarsat2_meta.py:63 | `str.split(sep)`: never empty, the pieces hold no separator |
| Common.Join | src/xsar/radarsat2_meta.py:69 | `sep.join(parts)`: a single piece joins to itself |
| Common.JoinSplit | src/xsar/radarsat2_meta.py:63-71 | joining the pieces of a split gives the string back |
| Common.SplitJoin | src/xsar/radarsat2_meta.py:63-71 | splitting a join of separator-free pieces gives the pieces back |
| RadarSat2Names.Basename | src/xsar/radarsat2_meta.py:68 | the basename holds no `/` |
| RadarSat2Names.ShortName | src/xsar/radarsat2_meta.py:63-69 | no contract of its own: the Windows-colon rejoin and basename; its result is stated by `ShortNameOfParts`, `ShortNameForm` and `ShortNameOfPlainPath` |
| RadarSat2Names.PathOf | src/xsar/radarsat2_meta.py:71 | no contract of its own: `':'.join(name.split(':')[1:-1])`; its result is stated by `PathBetweenColons` and `PlainPath` |
| RadarSat2Names.ProductOf | src/xsar/radarsat2_meta.py:75-79 | no contract of its own: field 9 of the directory name or `"XXX"`, as `FieldsOfDirectory` states |
| RadarSat2Names.SwathOf | src/xsar/radarsat2_meta.py:111 | no contract of its own: field 4 of the directory name or an IndexError, as `FieldsOfDirectory` states |
| RadarSat2Names.Normalize | src/xsar/radarsat2_meta.py:59-60 | a bare path becomes `RADARSAT2_DS:<path>:`; a prefixed name is kept |
| RadarSat2Names.ParseName | src/xsar/radarsat2_meta.py:59-79 | the stored name is prefixed, and a prefixed name is kept as given; `safe` and `product` are derived from `path` (what `path` is: `PathBetweenColons`, `PlainPath`) |
| RadarSat2Names.PrefixSplit | src/xsar/radarsat2_meta.py:63 | a prefixed name splits into `RADARSAT2_DS` and at least one more piece |
| RadarSat2Names.BasenameOfJoin | src/xsar/radarsat2_meta.py:73 | the basename of `dir/b` is `b` |
| RadarSat2Names.PlainPath | src/xsar/radarsat2_meta.py:59-73 | for a bare path, `path` is that path again, colons included, and `safe` is its basename |
| RadarSat2Names.PrefixWithoutSecondColon | src/xsar/radarsat2_meta.py:59-79 | `RADARSAT2_DS:<rest>` with no second colon is kept as given, with an empty path and `safe`, and the short name `RADARSAT2_DS:` + basename of `rest` |
| RadarSat2Names.PathBetweenColons | src/xsar/radarsat2_meta.py:71 | for `RADARSAT2_DS:<mid>:<last>` the path is `mid`, everything between the first and the last colon, its own colons included; `safe` is its basename |
| RadarSat2Names.ShortNameForm | src/xsar/radarsat2_meta.py:63-69 | `short_name` is prefix, basename of the path and last piece, whatever colons the path holds |
| RadarSat2Names.ShortNameOfParts | src/xsar/radarsat2_meta.py:64-69 | the Windows-colon rejoin, then the basename, gives the three-piece short name |
| RadarSat2Names.ShortNameOfPlainPath | src/xsar/radarsat2_meta.py:59-69 | for a bare path, `short_name` is `RADARSAT2_DS:<basename>:` |
| RadarSat2Names.FieldsOfDirectory | src/xsar/radarsat2_meta.py:76-79 | product is field 9 or `"XXX"`; swath is field 4 or an IndexError |
| RadarSat2Names.ParseNameStable | src/xsar/radarsat2_meta.py:59-79 | parsing the stored name again gives the same names, as `from_dict` relies on |
| AffineMap.Invert | src/xsar/radarsat2_meta.py:414 | `~t` fails exactly when the determinant is zero |
| AffineMap.InvertAfterApply | src/xsar/radarsat2_meta.py:414-418 | `~t * (t * p) == p` |
| AffineMap.ApplyAfterInvert | src/xsar/radarsat2_meta.py:414-418 | `t * (~t * q) == q` |
| Geolocation.MaxOf | src/xsar/radarsat2_meta.py:156 | `np.max`: bounds every value and is one of them |
| Geolocation.MinOf | src/xsar/radarsat2_meta.py:156-157 | `np.min`: below every value and is one of them |
| Geolocation.FlatMembers | src/xsar/radarsat2_meta.py:156-157 | the flattened grid holds exactly the grid's values |
| Geolocation.CrossesAntimeridian | src/xsar/radarsat2_meta.py:153-157 | no contract of its own: max − min of the longitudes above 180; characterised node by node in `CrossesIff` |
| Geolocation.CrossesIff | src/xsar/radarsat2_meta.py:153-157 | crosses the antimeridian iff two nodes differ by more than 180 |
| Geolocation.CrossesHasNodes | src/xsar/radarsat2_meta.py:153-157 | a crossing grid has two nodes more than 180 apart |
| Geolocation.NodesCross | src/xsar/radarsat2_meta.py:153-157 | two nodes more than 180 apart make the grid cross |
| Geolocation.Mod360 | src/xsar/radarsat2_meta.py:254 | `x % 360` lies in [0, 360), differs from x by a multiple of 360, and is x on [0, 360) |
| Geolocation.Mod360Row | src/xsar/radarsat2_meta.py:254 | each longitude of a row taken `% 360` |
| Geolocation.Rewrite | src/xsar/radarsat2_meta.py:253-254 | only the longitudes change, each taken `% 360`; the shape is kept |
| Geolocation.RewriteIdempotent | src/xsar/radarsat2_meta.py:253-254 | rewriting twice is rewriting once |
| Geolocation.CornerNodes | src/xsar/radarsat2_meta.py:121 | the four corner nodes lie in the grid |
| Geolocation.CornersRing | src/xsar/radarsat2_meta.py:121 | consecutive corners share a line or pixel; on a 2×2 grid or larger they are distinct border nodes |
| Geolocation.Footprint | src/xsar/radarsat2_meta.py:118-126 | the (lon, lat) of the corners in order (0,0), (0,-1), (-1,-1), (-1,0); an IndexError on an empty grid |
| Geolocation.GcpRows | src/xsar/radarsat2_meta.py:145-148 | (lines left) × pixels points |
| Geolocation.GcpOrder | src/xsar/radarsat2_meta.py:145-148 | one control point per node, node (i, j) at index i·pixels + j (line-major) |
| Geolocation.GcpRowsAt | src/xsar/radarsat2_meta.py:145-148 | the position of node (i, j) among the points of lines `from..` |
| Geolocation.Gcps | src/xsar/radarsat2_meta.py:135-150 | one control point per (line, pixel) node; their order is stated by `GcpOrder` |
| Geolocation.GcpAt | src/xsar/radarsat2_meta.py:135-143 | no contract of its own: the control point of node (i, j), longitude as `x`, latitude as `y`, height as `z`, the line as `col` and the pixel as `row`; its place among the points is stated by `GcpOrder` |
| LonLatMapping.Values | src/xsar/radarsat2_meta.py:344-348 | a scalar is one value, an array its values |
| LonLatMapping.Shift | src/xsar/radarsat2_meta.py:459-460 | `lines ± 1` keeps scalar-ness and length and moves every value |
| LonLatMapping.Forward | src/xsar/radarsat2_meta.py:350-367 | `to_lon180` applies to the longitude exactly when the antimeridian flag is set; the latitude is kept |
| LonLatMapping.Broadcast | src/xsar/radarsat2_meta.py:355-364 | numpy broadcasting: equal lengths pair up, a length of 1 repeats, anything else is a ValueError |
| LonLatMapping.Item | src/xsar/radarsat2_meta.py:369-371 | `.item()` succeeds exactly on a result of size 1 |
| LonLatMapping.GridOf | src/xsar/radarsat2_meta.py:351-361 | the value at every (line, sample) pair of the outer product |
| LonLatMapping.LonLatSpec | src/xsar/radarsat2_meta.py:316-377 | no contract of its own: the `coords2ll` result for the given source and flag, the exact `to_grid` path refusing unsorted lines or samples as the spline does; its shapes, values and errors are stated by `GridShape`, `ScalarInScalarOut`, `ScalarLineArraySamples` and `PointwiseArrays` |
| LonLatMapping.MapPairs | src/xsar/radarsat2_meta.py:355-364 | the value at every broadcast pair |
| LonLatMapping.GridShape | src/xsar/radarsat2_meta.py:351-361 | `to_grid` succeeds exactly when the map is the approximate one, lines or samples are empty (the spline's empty table), or both are non-decreasing (the spline's ValueError otherwise), and then gives a len(lines) × len(samples) table of the values at each pair |
| LonLatMapping.Raw | src/xsar/radarsat2_meta.py:350-361 | no contract of its own: the outer product on a grid (when the spline evaluates it: empty if either argument is, otherwise a ValueError for unsorted lines or samples), a scalar for two scalars, the broadcast pairs otherwise; stated by `GridShape`, `PointwiseArrays`, `RawShift` and `RawZip` |
| LonLatMapping.Lift | src/xsar/radarsat2_meta.py:369-371 | no contract of its own: the raw values, made a scalar through `.item()` for a scalar `lines`; stated by `ScalarInScalarOut`, `ScalarLineArraySamples`, `LiftShift` and `LiftZip` |
| LonLatMapping.ShiftKeepsOrder | src/xsar/radarsat2_meta.py:459-460 | `lines ± 1` is non-decreasing exactly when `lines` is, so both shifted conversions of `coords2heading` meet the spline's order test alike |
| LonLatMapping.ScalarInScalarOut | src/xsar/radarsat2_meta.py:346-371 | scalar inputs give a scalar output, on a grid or not |
| LonLatMapping.ScalarLineArraySamples | src/xsar/radarsat2_meta.py:369-371 | a scalar line with samples of length other than 1 raises ValueError at `.item()` |
| LonLatMapping.PointwiseArrays | src/xsar/radarsat2_meta.py:355-364 | equal-length arrays convert pair by pair; non-broadcastable lengths are a ValueError |
| LonLatMapping.LonLatToCoordsSpec | src/xsar/radarsat2_meta.py:411-432 | a degenerate approximate transform cannot be inverted; otherwise the call succeeds exactly for two scalars or broadcastable arrays (a ValueError else), giving the corrected point (`CorrectPoint`) of the scalars or of each broadcast pair |
| LonLatMapping.LonLatToCoordsOfAffine | src/xsar/radarsat2_meta.py:411-432 | where the exact map is the affine map, `ll2coords` of broadcast arrays is the affine inverse at every pair |
| LonLatMapping.CorrectPoint | src/xsar/radarsat2_meta.py:413-425 | no contract of its own: approximate inverse, forward, inverse again, minus the error; its exactness is stated by `CorrectionOfAffine` and `CorrectionOfShift` |
| LonLatMapping.CorrectionOfAffine | src/xsar/radarsat2_meta.py:413-425 | when the exact map is the affine map, the corrected result is the affine inverse |
| LonLatMapping.CorrectionOfShift | src/xsar/radarsat2_meta.py:413-425 | when the exact map is the affine map offset in image coordinates, one correction is exact: the result maps forward to the requested point |
| LonLatMapping.ApproxHeading | src/xsar/radarsat2_meta.py:459-462 | with the affine map the two points are (2a, 2d) apart, wherever the pixel is |
| LonLatMapping.Zip | src/xsar/radarsat2_meta.py:461 | `haversine` element-wise over two results of one shape keeps that shape |
| LonLatMapping.BroadcastShift | src/xsar/radarsat2_meta.py:459-460 | broadcasting shifted lines shifts the first member of each pair |
| LonLatMapping.RawShift | src/xsar/radarsat2_meta.py:459-460 | converting shifted lines is converting with the line argument shifted |
| LonLatMapping.LiftShift | src/xsar/radarsat2_meta.py:459-460 | the same, through the scalar conversion |
| LonLatMapping.RawZip | src/xsar/radarsat2_meta.py:459-462 | the point-wise bearing of two conversions equals converting the point-wise bearing; the three fail together, with the same error |
| LonLatMapping.ItemZip | src/xsar/radarsat2_meta.py:369-371 | `.item()` of the combined results is the combination of the items |
| LonLatMapping.LiftZip | src/xsar/radarsat2_meta.py:459-462 | the same, through the scalar conversion |
| LonLatMapping.HeadingSpec | src/xsar/radarsat2_meta.py:441-462 | no contract of its own: the heading at each point; `HeadingComposes` states that it is the bearing between the two shifted `coords2ll` results |
| LonLatMapping.HeadingComposes | src/xsar/radarsat2_meta.py:459-462 | the heading is the bearing between `coords2ll(lines - 1)` and `coords2ll(lines + 1)`; it fails exactly when they do, with the error of the first |
| RadarSat2.Trunc | src/xsar/radarsat2_meta.py:132-133 | `%d` truncates toward zero, by less than 1 |
| RadarSat2.TimeRangeOf | src/xsar/radarsat2_meta.py:508-513 | first and last time stamp; IndexError without stamps; AttributeError for a multi-dataset |
| RadarSat2.TimeRangeCovers | src/xsar/radarsat2_meta.py:508-513 | every time stamp of an ordered series lies in the closed interval |
| RadarSat2.ManifestOf | src/xsar/radarsat2_meta.py:109-151 | fails (IndexError) iff no field 4, no time stamp or an empty grid; otherwise swath, polarisations, product, satellite, dates and footprint as parsed, coverage as the truncated kilometres of the two footprint sides, and the transform fitted to the grid's control points |
| RadarSat2.ExactGrid | src/xsar/radarsat2_meta.py:251-254 | the grid the spline is built on: rewritten `% 360` exactly when it crosses |
| RadarSat2.KeyList | src/xsar/radarsat2_meta.py:192-208 | `'minimal'` and `'all'` are the presets; another string is a KeyError; a list is used as given |
| RadarSat2.Cleared | src/xsar/radarsat2_meta.py:172-175 | every mask name mapped to None, and no other name |
| RadarSat2.CheckName | src/xsar/radarsat2_meta.py:182-184 | a missing entry is a KeyError, a non-None entry an AssertionError, geometry before features |
| RadarSat2.DictIsClean | src/xsar/radarsat2_meta.py:164-188 | what `dict` builds passes the checks of `from_dict` |
| RadarSat2.Defaults.constructor | src/xsar/radarsat2_meta.py:33-38 | the class default masks are `land` from Natural Earth; no rasters |
| RadarSat2.Defaults.SetMaskFeature | src/xsar/radarsat2_meta.py:500-502 | on the class only the raw table changes |
| RadarSat2.Meta.constructor | src/xsar/radarsat2_meta.py:57-107 | names from the identifier; the manifest; every default mask stored with its three caches unset; class rasters copied; the object is valid |
| RadarSat2.Meta.SetMaskFeatures | src/xsar/radarsat2_meta.py:103-105 | after the loop, the raw table is extended by the defaults and every default name's caches are unset |
| RadarSat2.Meta.SetMaskFeature | src/xsar/radarsat2_meta.py:500-506 | on an instance, the feature is stored and its three caches reset; nothing else changes; validity is kept |
| RadarSat2.Meta.Open | src/xsar/radarsat2_meta.py:57-107 | an IndexError exactly when the manifest cannot be built; otherwise a fresh valid object |
| RadarSat2.Meta.Dict | src/xsar/radarsat2_meta.py:159-176 | name, raw table, three caches with every mask name unset, rasters; always accepted by `from_dict` |
| RadarSat2.Meta.CheckMiniDict | src/xsar/radarsat2_meta.py:182-184 | no error iff every mask name has unset geometry and feature entries; an error is that of an offending name |
| RadarSat2.Meta.FromDict | src/xsar/radarsat2_meta.py:178-188 | a rejected dictionary raises a mask name's error; an accepted one gives a valid object holding the dictionary's name, tables and rasters |
| RadarSat2.Meta.Update | src/xsar/radarsat2_meta.py:187 | the dictionary's entries replace the object's own; the grid and time range are kept |
| RadarSat2.Meta.AllKeysResolve | src/xsar/radarsat2_meta.py:192-217 | every `'all'` key resolves; `'minimal'` is a prefix of `'all'`; `coverage` comes from the manifest |
| RadarSat2.Meta.PolsSplit | src/xsar/radarsat2_meta.py:225-228 | splitting `pols` on spaces gives the polarisations back |
| RadarSat2.Meta.Pols | src/xsar/radarsat2_meta.py:225-228 | no contract of its own: the polarisations joined by spaces; `PolsSplit` states they come back |
| RadarSat2.Meta.Attribute | src/xsar/radarsat2_meta.py:210-213 | no contract of its own: the attributes `to_dict` finds with `hasattr`; `AllKeysResolve` states which keys resolve |
| RadarSat2.Meta.Lookup | src/xsar/radarsat2_meta.py:210-217 | no contract of its own: an attribute first, then a manifest attribute; stated by `AllKeysResolve` and `ToDict` |
| RadarSat2.Meta.ToDict | src/xsar/radarsat2_meta.py:190-218 | attribute first, then manifest; succeeds iff every key resolves; the first unresolved key raises KeyError; the presets always succeed |
| RadarSat2.Meta.TimeRange | src/xsar/radarsat2_meta.py:515-520 | computed on first use and cached; later calls return the cache |
| RadarSat2.Meta.CoordsToLonLat | src/xsar/radarsat2_meta.py:316-377 | the conversion with the antimeridian flag of the grid as read; the grid is left rewritten at most once |
| RadarSat2.Meta.CoordsToLonLatAsWritten | src/xsar/radarsat2_meta.py:251-367 | the rewrite happens first, then the flag is taken again on the rewritten grid |
| RadarSat2.Meta.Src | src/xsar/radarsat2_meta.py:343-358 | no contract of its own: the approximate transform, or the spline over the grid rewritten once when the grid as read crosses (`ExactGrid`) |
| RadarSat2.Meta.LonLatToCoords | src/xsar/radarsat2_meta.py:379-432 | the approximate inverse, one exact forward conversion and one correction per point, with the corrected antimeridian flag of the Findings row (the code inherits the flag taken again on the rewritten grid); the grid is rewritten only when the inversion succeeds |
| RadarSat2.Meta.CoordsToHeading | src/xsar/radarsat2_meta.py:441-462 | the bearing from the conversion one line before to the one one line after, with the corrected antimeridian flag of the Findings row; an exact conversion leaves the grid rewritten once, an approximate one leaves it as it was |
| RadarSat2.StraddlingGrid | src/xsar/radarsat2_meta.py:153-157 | a well-shaped 2 × 2 grid (the fewest nodes a linear spline accepts) with longitudes -179 and 179 on each line |
| RadarSat2.StraddlingCrosses | src/xsar/radarsat2_meta.py:153-157 | that grid crosses the antimeridian |
| RadarSat2.StraddlingRewritten | src/xsar/radarsat2_meta.py:253-254 | its rewrite has longitudes 181 and 179 on each line and no longer crosses |
| RadarSat2.RewrittenNodeZero | src/xsar/radarsat2_meta.py:357-358 | node (0, 0) of the rewritten grid interpolates to longitude 181 |
| RadarSat2.AntimeridianLostAsWritten | src/xsar/radarsat2_meta.py:253-367 | as written, the exact conversion of node (0, 0) returns longitude 181 |
| RadarSat2.ExactNodesKeepLongitude | src/xsar/radarsat2_meta.py:251-367 | with the flag of the grid as read, every node converts back to its own longitude and latitude |
| RadarSat2.AntimeridianKeptCorrected | src/xsar/radarsat2_meta.py:251-367 | corrected, node (0, 0) of the straddling grid converts to longitude -179 |
| Calibration.AbsSq | src/xsar/sentinel1_dataset.py:627 | abs(dn)² is non-negative and zero exactly at dn = 0 |
| Calibration.CalibratePixel | src/xsar/sentinel1_dataset.py:627-629 | defined iff dn ≠ 0 and lut ≠ 0; then positive and equal to abs(dn)²/lut²; never a numeric 0 |
| Calibration.NoisePixel | src/xsar/sentinel1_dataset.py:701-703 | noise/lut², defined iff lut ≠ 0 |
| Calibration.DenoisePixel | src/xsar/sentinel1_dataset.py:740-743 | raw − noise, NaN when either is; clipped at 0 with `clip` |
| Calibration.ReversePixel | src/xsar/sentinel1_dataset.py:673 | sqrt(v·lut²) when v ≥ 0 or lut = 0; NaN when v < 0 and lut ≠ 0 (numpy's square root of a negative number); NaN stays NaN |
| Calibration.ZeroDnIsMissing | src/xsar/sentinel1_dataset.py:627-629 | a digital number of 0 gives NaN |
| Calibration.ReverseCalibrateMagnitude | src/xsar/sentinel1_dataset.py:627-673 | reversing a calibrated pixel gives sqrt(abs(dn)²) |
| Calibration.ReverseCalibrateDetected | src/xsar/sentinel1_dataset.py:627-673 | for a positive real dn the round trip gives dn back |
| Calibration.RootUnique | src/xsar/sentinel1_dataset.py:673 | non-negative numbers with equal squares are equal |
| Calibration.ReverseOfFillIsMissing | src/xsar/sentinel1_dataset.py:629-673 | the fill value comes back NaN |
| Calibration.ClipBelowNoise | src/xsar/sentinel1_dataset.py:740-743 | raw below noise denoises, clipped, to exactly 0 |
| Calibration.CalibrateField | src/xsar/sentinel1_dataset.py:627-629 | the pixel rule at every pixel |
| Calibration.NoiseField | src/xsar/sentinel1_dataset.py:701-703 | the pixel rule at every pixel |
| Calibration.DenoiseField | src/xsar/sentinel1_dataset.py:740-743 | at every pixel: NaN iff raw or noise is; raw − noise at or above the noise; below it 0 with clipping and raw − noise without |
| Calibration.ReverseField | src/xsar/sentinel1_dataset.py:673 | at every pixel: NaN where v or the LUT is; sqrt(v·lut²) when v ≥ 0 or lut = 0; NaN when v < 0 and lut ≠ 0 |
| Calibration.ProductField | src/xsar/sentinel1_dataset.py:165-166 | range × azimuth at every pixel, NaN when either is |
| Calibration.ReverseCalibrateField | src/xsar/sentinel1_dataset.py:627-673 | the magnitude at each non-zero dn, NaN at each fill value |
| Chunks.KeySeq | src/xsar/sentinel1_dataset.py:439 | the keys of the items, in order |
| Chunks.ItemsIn | src/xsar/sentinel1_dataset.py:439 | the items whose key is listed, with their sizes |
| Chunks.RioChunks | src/xsar/sentinel1_dataset.py:440 | succeeds iff pol, atrack and xtrack are present; otherwise a KeyError |
| Chunks.NormalizeChunks | src/xsar/sentinel1_dataset.py:437-440 | a ValueError or a KeyError on failure; otherwise the sorted chunks start with pol of size 1, and band, y, x follow with band of size 1 |
| Chunks.SortedByDims | src/xsar/sentinel1_dataset.py:437-439 | pol (size 1) first, then atrack and xtrack when present, each once |
| Chunks.NormalizeComplete | src/xsar/sentinel1_dataset.py:437-440 | pol, atrack, xtrack with one polarisation per chunk, and the same sizes as band, y, x |
| Chunks.NormalizeUnknownKey | src/xsar/sentinel1_dataset.py:439 | a key that is not a dimension makes the sort raise ValueError |
| Chunks.NormalizeMissingSize | src/xsar/sentinel1_dataset.py:440 | a missing spatial size is a KeyError |
| DatasetGeometry.BBoxCoords | src/xsar/sentinel1_dataset.py:228-244 | four corners; an IndexError on an empty coordinate |
| DatasetGeometry.BBoxIsRectangle | src/xsar/sentinel1_dataset.py:233-244 | a closed rectangle from (first − pad) to (last + pad) |
| DatasetGeometry.BBoxEncloses | src/xsar/sentinel1_dataset.py:233-244 | on increasing coordinates the box encloses every pixel |
| DatasetGeometry.DiffSetSize | src/xsar/sentinel1_dataset.py:341 | one or no distinct spacing iff an arithmetic progression; none iff at most one value |
| DatasetGeometry.RegularlySpaced | src/xsar/sentinel1_dataset.py:340-341 | no contract of its own: the larger number of distinct spacings is 1; characterised by `RegularlySpacedMeans` |
| DatasetGeometry.RegularlySpacedMeans | src/xsar/sentinel1_dataset.py:339-341 | regular iff both coordinates are progressions and one has two values |
| DatasetGeometry.Nearest | src/xsar/sentinel1_dataset.py:298 | the index of a nearest coordinate; the later one on a tie |
| DatasetGeometry.AllMissing | src/xsar/sentinel1_dataset.py:306 | every point NaN |
| DatasetGeometry.Tolerance | src/xsar/sentinel1_dataset.py:296 | the larger of the two half spacings, plus 1 |
| DatasetGeometry.SnapToGrid | src/xsar/sentinel1_dataset.py:294-308 | the lengths are kept, and the result is all-or-nothing: every point of both dimensions is NaN, or none is |
| DatasetGeometry.SnapAllOrNothing | src/xsar/sentinel1_dataset.py:296-306 | one point out of tolerance, on the atrack or on the xtrack dimension, makes every point of both dimensions NaN |
| DatasetGeometry.SnapNearest | src/xsar/sentinel1_dataset.py:296-304 | within tolerance, each atrack and each xtrack becomes a grid coordinate of its own dimension within tolerance, and no grid coordinate is nearer |
| DatasetGeometry.NearestOfGridPoint | src/xsar/sentinel1_dataset.py:298 | a grid coordinate is nearest to itself |
| DatasetGeometry.SnapGridPoints | src/xsar/sentinel1_dataset.py:296-304 | grid coordinates are snapped to themselves |
| DatasetGeometry.ResizeNearest | src/xsar/sentinel1_dataset.py:666-670 | the LUT on the variable's pixels: pixel (p, i, j) holds the LUT at polarisation p, the nearest atrack and the nearest xtrack of the LUT's own grid |
| DatasetGeometry.ResizeOntoItself | src/xsar/sentinel1_dataset.py:666-670 | re-indexing onto the LUT's own increasing grid leaves it unchanged |
| LutLoading.BlockName | src/xsar/sentinel1_dataset.py:387-390 | `"<lut>_<pol>"` for a per-polarisation LUT, the bare name otherwise |
| LutLoading.RowsFor | src/xsar/sentinel1_dataset.py:381-383 | all rows, or only the first for an invariant LUT (an IndexError without one) |
| LutLoading.LazyLoadLuts | src/xsar/sentinel1_dataset.py:369-410 | the loop, with its `pol_code` read after each name, gives the blocks of the specification or its error; with no name the result is unbound |
| LutLoading.LoadSpec | src/xsar/sentinel1_dataset.py:373-407 | no contract of its own: the blocks of each name in order, the first failure deciding, an AttributeError after any name whose blocks so far have no polarisation block; stated by `LazyLoadLuts`, `PerPolBlocks`, `InvariantLutFirstFile`, `LoadAllCount`, `EmptyTableFails` and `InvariantFirstFails` |
| LutLoading.BlocksFor | src/xsar/sentinel1_dataset.py:373-403 | no contract of its own: a KeyError for a name outside the maps, else one block per row read; stated by `PerPolBlocks`, `InvariantLutFirstFile` and `UnknownLutFails` |
| LutLoading.PolBlockAppend | src/xsar/sentinel1_dataset.py:398-407 | the blocks have a polarisation block after an append exactly when they had one or the new block is one |
| LutLoading.LoadExtends | src/xsar/sentinel1_dataset.py:373-407 | once a first name has loaded, the `pol_code` read cannot fail again: a further name that loads only appends its blocks |
| LutLoading.EmptyTableFails | src/xsar/sentinel1_dataset.py:385-407 | with an empty file table, a first per-polarisation LUT appends nothing and reading `pol_code` is an AttributeError |
| LutLoading.InvariantFirstFails | src/xsar/sentinel1_dataset.py:381-407 | a first LUT without polarisation dimension gives a block without `pol_code`: an AttributeError |
| LutLoading.FailureSticks | src/xsar/sentinel1_dataset.py:373-404 | a failure on a prefix of the names is the failure of the whole load |
| LutLoading.PerPolBlocks | src/xsar/sentinel1_dataset.py:373-390 | a per-polarisation LUT is read once per file, named after its polarisation |
| LutLoading.InvariantLutFirstFile | src/xsar/sentinel1_dataset.py:381-390 | an invariant LUT is read from the first file only, under its own name |
| LutLoading.LoadAllCount | src/xsar/sentinel1_dataset.py:373-404 | the six LUTs give 4 × files + 2 blocks |
| LutLoading.UnknownLutFails | src/xsar/sentinel1_dataset.py:374 | a name outside the file map is a KeyError |
| SentinelDataset.GetLut | src/xsar/sentinel1_dataset.py:601-609 | the mapped LUT; a ValueError when the name is unmapped or the LUT not loaded |
| SentinelDataset.ApplyCalibrationLut | src/xsar/sentinel1_dataset.py:611-633 | the errors of `_get_lut`; otherwise the calibrated field, never 0, NaN at dn = 0 |
| SentinelDataset.NoiseName | src/xsar/sentinel1_dataset.py:704 | `"ne" + v[0] + "z"` |
| SentinelDataset.GetNoise | src/xsar/sentinel1_dataset.py:701-708 | a KeyError without `noise_lut`, checked first; otherwise noise_lut/lut² under the noise name |
| SentinelDataset.NoiseNameOfRaw | src/xsar/sentinel1_dataset.py:731 | `v_raw` and `v` have the same noise name |
| SentinelDataset.NoiseNames | src/xsar/sentinel1_dataset.py:704 | `nesz`, `negz`, `nebz` |
| SentinelDataset.ReverseCalibrationLut | src/xsar/sentinel1_dataset.py:655-684 | AssertionError unless one variable; ValueError for an unmapped name; KeyError for an unloaded LUT; one variable with a mapped, loaded LUT always succeeds, and then, at each pixel of the variable, sqrt(v·lut²) with the LUT read at the nearest atrack and xtrack, NaN where v or that LUT value is, NaN for v < 0 |
| SentinelDataset.ReverseOfCalibration | src/xsar/sentinel1_dataset.py:611-684 | on the dataset's own coordinates, the reverse of a calibrated variable is abs(dn) at non-zero dn and NaN at fill values |
| SentinelDataset.ReverseOnGrid | src/xsar/sentinel1_dataset.py:666-673 | on the dataset's own coordinates the reverse uses the LUT as loaded, pixel by pixel |
| SentinelDataset.WithNoiseLut | src/xsar/sentinel1_dataset.py:164-166 | `noise_lut` added exactly when range and azimuth exist, as their product; nothing else changes |
| SentinelDataset.FirstMissing | src/xsar/sentinel1_dataset.py:172-173 | the first hidden LUT that is missing |
| SentinelDataset.MergeLuts | src/xsar/sentinel1_dataset.py:170-176 | visible LUTs always, hidden ones with `luts`; a KeyError when one is missing then |
| SentinelDataset.StageSpec | src/xsar/sentinel1_dataset.py:178-185 | the stage keeps all fields on the pixel grid |
| SentinelDataset.StageStep | src/xsar/sentinel1_dataset.py:179-185 | no contract of its own: one variable of the stage; its effect is stated by `StageAddsCalibrated` and `StageWithoutNoise` |
| SentinelDataset.StageAddsCalibrated | src/xsar/sentinel1_dataset.py:178-185 | with a noise LUT, each raw variable and its noise equivalent are added iff their LUT is loaded; nothing else changes |
| SentinelDataset.StageWithoutNoise | src/xsar/sentinel1_dataset.py:178-185 | without a noise LUT, any loaded calibration LUT makes the stage a KeyError; none leaves the dataset unchanged |
| SentinelDataset.StageFailureSticks | src/xsar/sentinel1_dataset.py:178-185 | a failed step fails the whole stage |
| SentinelDataset.DenoiseModes | src/xsar/sentinel1_dataset.py:733-738 | alias iff all denoised (none included); mixed iff both; subtract iff none |
| SentinelDataset.ModeOf | src/xsar/sentinel1_dataset.py:733-738 | no contract of its own: the branch taken; characterised by `DenoiseModes` |
| SentinelDataset.DenoiseStepAligned | src/xsar/sentinel1_dataset.py:729-744 | a step keeps every field on the grid |
| SentinelDataset.DenoiseStep | src/xsar/sentinel1_dataset.py:729-744 | no contract of its own: one variable of `_add_denoised`; stated by `DenoisedSubtraction`, `DenoisedAlias`, `DenoiseSkipsMissing` and `DenoiseMixedFails` |
| SentinelDataset.DenoiseSpec | src/xsar/sentinel1_dataset.py:729-745 | the loop keeps every field on the grid |
| SentinelDataset.DenoisedSubtraction | src/xsar/sentinel1_dataset.py:738-744 | with clipping: NaN iff raw or noise is; raw − noise at or above the noise; exactly 0 below it |
| SentinelDataset.DenoisedAlias | src/xsar/sentinel1_dataset.py:733-735 | an all-denoised product gets the raw field as alias |
| SentinelDataset.DenoiseSkipsMissing | src/xsar/sentinel1_dataset.py:732-733 | a variable without `_raw` is skipped |
| SentinelDataset.DenoiseMixedFails | src/xsar/sentinel1_dataset.py:736-738 | mixed statuses raise NotImplementedError |
| SentinelDataset.NextSliced | src/xsar/sentinel1_dataset.py:219-222 | once sliced always sliced; otherwise sliced iff a coordinate changed |
| SentinelDataset.SentinelDataset.constructor | src/xsar/sentinel1_dataset.py:199 | a new dataset object is not sliced |
| SentinelDataset.SentinelDataset.StageCalibration | src/xsar/sentinel1_dataset.py:178-185 | the loop computes the stage specification, or its error |
| SentinelDataset.SentinelDataset.AddDenoised | src/xsar/sentinel1_dataset.py:710-745 | the loop computes the denoise specification, or its error |
| SentinelDataset.SentinelDataset.SetDataset | src/xsar/sentinel1_dataset.py:216-226 | a ValueError for another product, with nothing changed; otherwise the dataset is replaced and `sliced` updated |
| SentinelDataset.DenoiseFailureSticks | src/xsar/sentinel1_dataset.py:729-745 | a failed variable fails the whole call |
| SentinelDataset.Open | src/xsar/sentinel1_dataset.py:162-199 | noise LUT, merge, stage and denoising, in order; the first error wins; the result is unsliced |

## Left out

- Reading products (xml, rasters, `rs2_reader`) and the laziness of dask/xarray: the product reader's output is an input value, and fields are computed eagerly as sequences.
- `RectBivariateSpline`, `to_lon180`, `haversine`, `rasterio.transform.from_gcps` and `np.sqrt` are parameters. `utils.py` is not part of this model.
- The 90th percentile of the coordinate spacing is an input of the bounding box and of the snapping tolerance.
- Floating point: values are reals and NaN is `None`. A zero LUT value (an infinity in numpy) is modelled as NaN. dtype casts, and the loss of phase for complex digital numbers, are not modelled beyond the magnitude.
- Shapely inputs of `coords2ll`/`ll2coords` (`_coords2ll_shapely`, `_ll2coords_shapely`), and the footprint as a Polygon (kept as its corner list).
- `RadarSat2.Meta.CoordsToLonLat`: does not model the `type(lines)(lon)` conversion back to the caller's container type; numpy arrays and lists are one `Arg`.
- `LonLatMapping.LonLatToCoordsSpec`: an affine transform applied to broadcast arrays is modelled by the same broadcasting rule as the exact path.
- `RadarSat2.ManifestOf`: the coverage is the pair of truncated kilometre numbers, not the formatted text. Dates are time stamps, not `'%s'` strings.
- `RadarSat2.Meta.CheckMiniDict`: the order in which mask names are checked is not modelled, because a Python dict keeps insertion order and a Dafny map has none. Only "the error of some offending name" is stated.
- `RadarSat2.Meta.ToDict`: the result is a map, so the insertion order of the Python dict is not modelled.
- `RadarSat2.Meta.Update`: `copy.copy` is shallow, so the raw mask table of a rebuilt object is shared with the dictionary's. That aliasing is not modelled, because tables are values.
- `RadarSat2.Meta.Attribute`: only the attributes `to_dict` can meet among the keys of the presets and the name-derived ones are modelled. The reader datasets (`orbit_and_attitude`, `lut`, ...) and the methods are not.
- `RadarSat2.TimeRangeOf`: the multi-dataset branch takes `.values` of a Python list, an AttributeError. `multidataset` is always False after `__init__`, so that branch cannot run.
- `footprint` (property), `approx_transform` (property) and the pixel-spacing properties are attribute reads, and are covered by `RadarSat2.Meta.Attribute`.
- Masks themselves (`get_mask`, cartopy features, shapely intersections): only the tables that `set_mask_feature`, `dict` and `from_dict` touch are modelled.
- `src/xsar/xarray_backends.py`: backend registration only.
- HTML representation, warnings, logging and timing decorators.
- Sentinel-1 `_load_digital_number` reading and resampling: only the chunk-key arithmetic is modelled. The caller inserting keys in some order is erased by the sort.
- `Chunks.NormalizeChunks`: `chunks['pol'] = 1` (`src/xsar/sentinel1_dataset.py:437`) writes into the caller's dict, and the constructor's default `chunks` (line 60) is one dict shared by every call. The model returns a new value, so that aliasing, and the `pol` key it leaves in the caller's dict, are not modelled.
- `LutLoading.LazyLoadLuts`: `xr.combine_by_coords` is modelled as keeping the list of blocks, and only its missing `pol_code` is an error; the coordinates it builds and any error of its own are not modelled.
- `SentinelDataset.ReverseCalibrationLut`: the variable is taken to have the dataset's polarisations. xarray's alignment of a variable sliced along pol (an inner join on pol) is not modelled. A variable with atracks or xtracks against a LUT without any is excluded; pandas' error for a nearest lookup on an empty index is not modelled.
- `SentinelDataset.SentinelDataset.SetDataset`: the `ds.attrs['name']` lookup cannot fail, because a modelled dataset always has a name; the source raises KeyError without one. While `sliced` is unset, the source lists `ds[d].values` for `d` in atrack, xtrack and pol (`src/xsar/sentinel1_dataset.py:220-222`). That is a TypeError for a scalar coordinate, as after `ds.sel(pol='VV')`, and a KeyError for a missing one. A modelled dataset keeps each of the three coordinates as a sequence, so those errors are not modelled, and such a dataset is accepted and marks the dataset sliced. `_recompute_attrs()` after the new dataset is stored (`src/xsar/sentinel1_dataset.py:224`) is left out: it recomputes spacing, coverage and footprint, and its errors would surface after the state has changed.
- `SentinelDataset.Open`: `_recompute_attrs()` at the end of the constructor (`src/xsar/sentinel1_dataset.py:188`) is left out, and so are its errors.
- `RadarSat2Names.Basename`: `os.path.basename` is modelled for POSIX paths. On Windows, `\` is a separator too; the colon rejoin of the name exists for Windows drive letters, but the basename of such a path is not modelled.
- `RadarSat2.Meta.CoordsToLonLat`: `RectBivariateSpline` raises ValueError when the grid's lines or pixels are not increasing, and when the grid has fewer than two lines or two pixels (a linear spline needs more points than its degree on each axis). The interpolator is a parameter and a one-line or one-pixel grid is admitted, so those errors are not modelled.
- `RadarSat2.Meta.CoordsToHeading`: a Python list for `lines` makes `lines - 1` a TypeError, and so does a list on the approximate path of `coords2ll` (`affine * (list, list)`). Arguments are scalars or numpy arrays, so those errors are not modelled.
- `DatasetGeometry.SnapToGrid`: pandas `sel(method='nearest')` on a non-monotonic index is not modelled. Ties go to the later coordinate, as on an increasing index.

## Findings

| source | as written | input that shows it | evidently intended | confidence | as-written member | corrected member |
|---|---|---|---|---|---|---|
| src/xsar/radarsat2_meta.py:253-367 | The exact conversion rewrites the stored longitudes `% 360` in place. `coords2ll` then takes `cross_antemeridian` again, on the rewritten grid. | A 2 × 2 grid with longitudes -179 and 179 on each line crosses the antimeridian. Its rewrite (181 and 179 on each line) does not. So the exact conversion of node (0, 0) returns longitude 181 and never applies `to_lon180` (`RadarSat2.AntimeridianLostAsWritten`). Later approximate conversions lose it too, and `ll2coords` and `coords2heading`, which go through the exact `coords2ll`, inherit the lost flag. | The flag belongs to the footprint as read. The node converts back to -179, and every node to its own longitude (`RadarSat2.ExactNodesKeepLongitude`, `RadarSat2.AntimeridianKeptCorrected`). `RadarSat2.Meta.LonLatToCoords` and `RadarSat2.Meta.CoordsToHeading` are built on this corrected flag. | not executed | RadarSat2.Meta.CoordsToLonLatAsWritten | RadarSat2.Meta.CoordsToLonLat |
