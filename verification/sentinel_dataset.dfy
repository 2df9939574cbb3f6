/** The calibration and denoising stages of a Sentinel-1 Level-1 dataset and
    the bookkeeping of the dataset object: LUT lookup, calibrated and noise
    equivalent variables, denoised variables, reverse calibration and the
    `dataset` setter. Every variable is a field over the same (pol, atrack,
    xtrack) grid, flattened. */
module SentinelDataset {
  import opened Common
  import opened Calibration
  import DatasetGeometry

  /** The xarray dataset: its `name` attribute, its coordinates, the digital
      numbers and the real-valued variables by name. */
  datatype Dataset = Dataset(
    name: string,
    atrack: seq<real>,
    xtrack: seq<real>,
    pol: seq<string>,
    dn: seq<Complex>,
    vars: map<string, Field>)

  /** A one-variable dataset. */
  datatype Named = Named(name: string, field: Field)

  /** Which LUT calibrates which raw variable, in iteration order. */
  const MapVarLut: map<string, string> := map["sigma0_raw" := "sigma0_lut", "gamma0_raw" := "gamma0_lut"]
  const VarLutOrder: seq<string> := ["sigma0_raw", "gamma0_raw"]

  /** Variables kept out of the dataset unless LUTs are asked for. */
  const HiddenVars: seq<string> := ["sigma0_lut", "gamma0_lut", "noise_lut", "noise_lut_range", "noise_lut_azi"]

  /** Variables `_add_denoised` considers by default. */
  const DefaultDenoiseVars: seq<string> := ["sigma0", "beta0", "gamma0"]

  /** Every field lies on the same grid of `n` pixels. */
  predicate Aligned(fields: map<string, Field>, n: nat)
  {
    forall k :: k in fields ==> |fields[k]| == n
  }

  /** `_get_lut`: the LUT that calibrates `varName`. */
  function GetLut(varName: string, luts: map<string, Field>): (r: Result<Field>)
    ensures r.Success? <==> varName in MapVarLut && MapVarLut[varName] in luts
    ensures r.Success? ==> r.value == luts[MapVarLut[varName]]
    ensures r.Failure? ==> r.error.ValueError?
  {
    if varName !in MapVarLut then
      Failure(ValueError("can't find lut name for var '" + varName + "'"))
    else if MapVarLut[varName] !in luts then
      Failure(ValueError("can't find lut from name '" + MapVarLut[varName] + "' for variable '" + varName + "'"))
    else Success(luts[MapVarLut[varName]])
  }

  /** `_apply_calibration_lut`: |dn|^2 / lut^2 with non-positive values
      turned into NaN. */
  function ApplyCalibrationLut(varName: string, luts: map<string, Field>, dn: seq<Complex>): (r: Result<Named>)
    requires Aligned(luts, |dn|)
    ensures r.Failure? <==> GetLut(varName, luts).Failure?
    ensures r.Failure? ==> r.error == GetLut(varName, luts).error
    ensures r.Success? ==>
              var lut := luts[MapVarLut[varName]];
              r.value.name == varName && |r.value.field| == |dn| &&
              forall i :: 0 <= i < |dn| ==>
                r.value.field[i] != Some(0.0) &&
                (r.value.field[i].Some? <==> dn[i] != Zero && lut[i].Some? && lut[i].value != 0.0) &&
                (r.value.field[i].Some? ==> Power(r.value.field[i].value, lut[i].value) == AbsSq(dn[i]))
  {
    var lut :- GetLut(varName, luts);
    Success(Named(varName, CalibrateField(dn, lut)))
  }

  /** The name of the noise equivalent of a variable: `"ne" + v[0] + "z"`. */
  function NoiseName(varName: string): (name: string)
    requires |varName| > 0
    ensures |name| == 4 && name[..2] == "ne" && name[2] == varName[0] && name[3] == 'z'
  {
    "ne" + [varName[0]] + "z"
  }

  /** `_get_noise`: noise_lut / lut^2, named after the variable's first
      letter. The noise LUT is looked up first. */
  function GetNoise(varName: string, luts: map<string, Field>): (r: Result<Named>)
    requires "noise_lut" in luts ==> Aligned(luts, |luts["noise_lut"]|)
    ensures "noise_lut" !in luts ==> r == Failure(KeyError("noise_lut"))
    ensures "noise_lut" in luts ==> (r.Failure? <==> GetLut(varName, luts).Failure?)
    ensures r.Success? ==>
              var noise := luts["noise_lut"];
              var lut := luts[MapVarLut[varName]];
              |varName| > 0 && r.value.name == NoiseName(varName) && |r.value.field| == |noise| &&
              forall i :: 0 <= i < |noise| ==>
                (r.value.field[i].Some? <==> noise[i].Some? && lut[i].Some? && lut[i].value != 0.0) &&
                (r.value.field[i].Some? ==> Power(r.value.field[i].value, lut[i].value) == noise[i].value)
  {
    if "noise_lut" !in luts then Failure(KeyError("noise_lut"))
    else
      var noise := luts["noise_lut"];
      var lut :- GetLut(varName, luts);
      assert varName == "sigma0_raw" || varName == "gamma0_raw";
      Success(Named(NoiseName(varName), NoiseField(noise, lut)))
  }

  /** The noise variable `_add_denoised` subtracts from `v` is the one
      `_get_noise` created for `v + "_raw"`. */
  lemma NoiseNameOfRaw(v: string)
    requires |v| > 0
    ensures NoiseName(v + "_raw") == NoiseName(v)
  {
  }

  lemma NoiseNames()
    ensures NoiseName("sigma0_raw") == "nesz"
    ensures NoiseName("gamma0_raw") == "negz"
    ensures NoiseName("beta0") == "nebz"
  {
  }

  /** `reverse_calibration_lut`: from a one-variable dataset on coordinates
      `at`, sqrt(v * lut^2) as `digital_number`, where the LUT, which lies on
      the dataset's coordinates `grid`, is first read at the nearest atrack
      and xtrack of each pixel of the variable. */
  function ReverseCalibrationLut(dsVar: seq<Named>, at: DatasetGeometry.Coords, grid: DatasetGeometry.Coords,
                                 luts: map<string, Field>, sqrt: real -> real): (r: Result<Named>)
    requires Aligned(luts, DatasetGeometry.Size(grid))
    requires |dsVar| == 1 ==> |dsVar[0].field| == DatasetGeometry.Size(at)
    requires at.pol == grid.pol
    requires |at.atrack| > 0 ==> |grid.atrack| > 0
    requires |at.xtrack| > 0 ==> |grid.xtrack| > 0
    ensures |dsVar| != 1 ==> r == Failure(AssertionError)
    ensures |dsVar| == 1 && dsVar[0].name !in MapVarLut ==> r.Failure? && r.error.ValueError?
    ensures |dsVar| == 1 && dsVar[0].name in MapVarLut && MapVarLut[dsVar[0].name] !in luts ==>
              r == Failure(KeyError(MapVarLut[dsVar[0].name]))
    ensures |dsVar| == 1 && dsVar[0].name in MapVarLut && MapVarLut[dsVar[0].name] in luts ==> r.Success?
    ensures r.Success? ==>
              var v := dsVar[0].field;
              var lut := luts[MapVarLut[dsVar[0].name]];
              r.value.name == "digital_number" && |r.value.field| == |v| &&
              forall p: nat, i: nat, j: nat :: p < |at.pol| && i < |at.atrack| && j < |at.xtrack| ==>
                var k := DatasetGeometry.FlatIndex(at, p, i, j);
                var l := lut[DatasetGeometry.FlatIndex(grid, p, DatasetGeometry.Nearest(grid.atrack, at.atrack[i]),
                                                       DatasetGeometry.Nearest(grid.xtrack, at.xtrack[j]))];
                ((v[k].None? || l.None?) ==> r.value.field[k].None?) &&
                (v[k].Some? && l.Some? && (v[k].value >= 0.0 || l.value == 0.0) ==>
                   r.value.field[k] == Some(sqrt(Power(v[k].value, l.value)))) &&
                (v[k].Some? && v[k].value < 0.0 && l.Some? && l.value != 0.0 ==> r.value.field[k].None?)
  {
    if |dsVar| != 1 then Failure(AssertionError)
    else
      var varName := dsVar[0].name;
      if varName !in MapVarLut then
        Failure(ValueError("Unable to find lut for var '" + varName + "'"))
      else if MapVarLut[varName] !in luts then
        Failure(KeyError(MapVarLut[varName]))
      else
        var lut := DatasetGeometry.ResizeNearest(luts[MapVarLut[varName]], grid, at);
        Success(Named("digital_number", ReverseField(dsVar[0].field, lut, sqrt)))
  }

  /** Reversing a calibrated variable on the dataset's own (increasing)
      coordinates gives back |dn| wherever the digital number is not the
      fill value 0 (the phase of a complex number is lost), for a LUT that
      is nowhere missing or zero. */
  lemma ReverseOfCalibration(varName: string, grid: DatasetGeometry.Coords, luts: map<string, Field>, dn: seq<Complex>, sqrt: real -> real)
    requires |dn| == DatasetGeometry.Size(grid)
    requires DatasetGeometry.Increasing(grid.atrack) && DatasetGeometry.Increasing(grid.xtrack)
    requires Aligned(luts, |dn|)
    requires varName in MapVarLut && MapVarLut[varName] in luts
    requires var lut := luts[MapVarLut[varName]];
             forall i :: 0 <= i < |lut| ==> lut[i].Some? && lut[i].value != 0.0
    ensures var cal := ApplyCalibrationLut(varName, luts, dn);
            var back := ReverseCalibrationLut([cal.value], grid, grid, luts, sqrt);
            back.Success? && |back.value.field| == |dn| &&
            forall i :: 0 <= i < |dn| ==>
              back.value.field[i] == (if dn[i] == Zero then None else Some(sqrt(AbsSq(dn[i]))))
  {
    var lut := luts[MapVarLut[varName]];
    var cf := CalibrateField(dn, lut);
    assert ApplyCalibrationLut(varName, luts, dn).value == Named(varName, cf);
    ReverseOnGrid(varName, cf, grid, luts, sqrt);
    var back := ReverseField(cf, lut, sqrt);
    assert forall i :: 0 <= i < |dn| ==> back[i] == (if dn[i] == Zero then None else Some(sqrt(AbsSq(dn[i])))) by {
      ReverseCalibrateField(dn, lut, sqrt);
    }
  }

  /** On the dataset's own coordinates the re-indexing is the identity, so
      the reverse is taken pixel by pixel against the LUT as loaded. */
  lemma ReverseOnGrid(varName: string, v: Field, grid: DatasetGeometry.Coords, luts: map<string, Field>, sqrt: real -> real)
    requires |v| == DatasetGeometry.Size(grid)
    requires DatasetGeometry.Increasing(grid.atrack) && DatasetGeometry.Increasing(grid.xtrack)
    requires Aligned(luts, |v|)
    requires varName in MapVarLut && MapVarLut[varName] in luts
    ensures ReverseCalibrationLut([Named(varName, v)], grid, grid, luts, sqrt) ==
              Success(Named("digital_number", ReverseField(v, luts[MapVarLut[varName]], sqrt)))
  {
    DatasetGeometry.ResizeOntoItself(luts[MapVarLut[varName]], grid);
  }

  /** `noise_lut = noise_lut_range * noise_lut_azi`, added only when both
      factors were loaded. */
  function WithNoiseLut(luts: map<string, Field>): (r: map<string, Field>)
    requires "noise_lut_range" in luts && "noise_lut_azi" in luts ==>
               |luts["noise_lut_range"]| == |luts["noise_lut_azi"]|
    ensures "noise_lut" in r <==> "noise_lut" in luts || ("noise_lut_range" in luts && "noise_lut_azi" in luts)
    ensures forall k :: k in luts && k != "noise_lut" ==> k in r && r[k] == luts[k]
    ensures forall k :: k in r && k != "noise_lut" ==> k in luts
    ensures "noise_lut_range" in luts && "noise_lut_azi" in luts ==>
              var x := luts["noise_lut_range"];
              var y := luts["noise_lut_azi"];
              |r["noise_lut"]| == |x| &&
              forall i :: 0 <= i < |x| ==>
                (r["noise_lut"][i].Some? <==> x[i].Some? && y[i].Some?) &&
                (r["noise_lut"][i].Some? ==> r["noise_lut"][i].value == x[i].value * y[i].value)
  {
    if "noise_lut_range" in luts && "noise_lut_azi" in luts then
      luts["noise_lut" := ProductField(luts["noise_lut_range"], luts["noise_lut_azi"])]
    else luts
  }

  /** The first of `keys` that `m` lacks. */
  function FirstMissing(keys: seq<string>, m: map<string, Field>): (r: Option<string>)
    ensures r.None? <==> forall k :: k in keys ==> k in m
    ensures r.Some? ==> r.value in keys && r.value !in m
  {
    if |keys| == 0 then None
    else if keys[0] !in m then Some(keys[0])
    else FirstMissing(keys[1..], m)
  }

  /** The variables merged into the dataset: the loaded dataset, every
      visible LUT, and, when `withLuts` holds, the hidden LUTs, every one of
      which must exist. */
  function MergeLuts(vars: map<string, Field>, luts: map<string, Field>, withLuts: bool): (r: Result<map<string, Field>>)
    ensures r.Failure? <==> withLuts && exists k :: k in HiddenVars && k !in luts
    ensures r.Success? ==>
              (forall k :: k in r.value <==> k in vars || (k in luts && (withLuts || k !in HiddenVars))) &&
              (forall k :: k in r.value ==>
                 r.value[k] == if k in luts && (withLuts || k !in HiddenVars) then luts[k] else vars[k])
  {
    var visible := map k | k in luts && k !in HiddenVars :: luts[k];
    if withLuts then
      var missing := FirstMissing(HiddenVars, luts);
      if missing.Some? then Failure(KeyError(missing.value))
      else Success(vars + visible + map k | k in luts && k in HiddenVars :: luts[k])
    else Success(vars + visible)
  }

  /** One step of the calibration stage: merge the calibrated variable and
      its noise equivalent when the variable's LUT was loaded, skip it
      otherwise. */
  function StageStep(varName: string, luts: map<string, Field>, dn: seq<Complex>, vars: map<string, Field>): Result<map<string, Field>>
    requires varName in MapVarLut
    requires Aligned(luts, |dn|)
  {
    if MapVarLut[varName] in luts then
      var cal :- ApplyCalibrationLut(varName, luts, dn);
      var noise :- GetNoise(varName, luts);
      Success(vars[cal.name := cal.field][noise.name := noise.field])
    else Success(vars)
  }

  /** The calibration stage over `names`, in order. */
  function StageSpec(names: seq<string>, luts: map<string, Field>, dn: seq<Complex>, vars: map<string, Field>): (r: Result<map<string, Field>>)
    requires forall k :: 0 <= k < |names| ==> names[k] in MapVarLut
    requires Aligned(luts, |dn|)
    ensures r.Success? && Aligned(vars, |dn|) ==> Aligned(r.value, |dn|)
  {
    if |names| == 0 then Success(vars)
    else
      var before :- StageSpec(names[..|names| - 1], luts, dn, vars);
      StageStep(names[|names| - 1], luts, dn, before)
  }

  /** With the noise LUT present, the calibration stage adds `sigma0_raw`
      and `nesz` exactly when `sigma0_lut` was loaded, `gamma0_raw` and
      `negz` exactly when `gamma0_lut` was, and changes nothing else. */
  lemma {:induction false} StageAddsCalibrated(luts: map<string, Field>, dn: seq<Complex>, vars: map<string, Field>)
    requires Aligned(luts, |dn|)
    requires "noise_lut" in luts
    ensures var r := StageSpec(VarLutOrder, luts, dn, vars);
            r.Success? &&
            ("sigma0_lut" in luts ==>
               ("sigma0_raw" in r.value && "nesz" in r.value &&
                r.value["sigma0_raw"] == CalibrateField(dn, luts["sigma0_lut"]) &&
                r.value["nesz"] == NoiseField(luts["noise_lut"], luts["sigma0_lut"]))) &&
            ("gamma0_lut" in luts ==>
               ("gamma0_raw" in r.value && "negz" in r.value &&
                r.value["gamma0_raw"] == CalibrateField(dn, luts["gamma0_lut"]) &&
                r.value["negz"] == NoiseField(luts["noise_lut"], luts["gamma0_lut"]))) &&
            (forall k :: k in r.value <==>
               (k in vars ||
                (k in {"sigma0_raw", "nesz"} && "sigma0_lut" in luts) ||
                (k in {"gamma0_raw", "negz"} && "gamma0_lut" in luts))) &&
            (forall k :: k in vars && k !in {"sigma0_raw", "nesz", "gamma0_raw", "negz"} ==> r.value[k] == vars[k])
  {
    var order := VarLutOrder;
    assert order[..1][..0] == [] && order[..2][..1] == order[..1] && order[..2] == order;
    assert StageSpec(order[..0], luts, dn, vars) == Success(vars);
    NoiseNames();
  }

  /** Without the noise LUT, the stage fails exactly when a calibration LUT
      is present (the noise equivalent cannot be computed), and skips both
      variables otherwise. */
  lemma {:induction false} StageWithoutNoise(luts: map<string, Field>, dn: seq<Complex>, vars: map<string, Field>)
    requires Aligned(luts, |dn|)
    requires "noise_lut" !in luts
    ensures var r := StageSpec(VarLutOrder, luts, dn, vars);
            ("sigma0_lut" in luts || "gamma0_lut" in luts ==> r == Failure(KeyError("noise_lut"))) &&
            ("sigma0_lut" !in luts && "gamma0_lut" !in luts ==> r == Success(vars))
  {
    var order := VarLutOrder;
    assert order[..1][..0] == [] && order[..2][..1] == order[..1] && order[..2] == order;
    assert StageSpec(order[..0], luts, dn, vars) == Success(vars);
  }

  /** Once a prefix of the stage fails, the whole stage fails the same way. */
  lemma {:induction false} StageFailureSticks(names: seq<string>, i: nat, luts: map<string, Field>, dn: seq<Complex>, vars: map<string, Field>)
    requires forall k :: 0 <= k < |names| ==> names[k] in MapVarLut
    requires Aligned(luts, |dn|)
    requires i <= |names|
    requires StageSpec(names[..i], luts, dn, vars).Failure?
    ensures StageSpec(names, luts, dn, vars) == StageSpec(names[..i], luts, dn, vars)
    decreases |names|
  {
    if i < |names| {
      var init := names[..|names| - 1];
      assert init[..i] == names[..i];
      StageFailureSticks(init, i, luts, dn, vars);
    } else {
      assert names[..i] == names;
    }
  }

  /** Whether the polarisations are denoised, as `all(...)` and the number of
      distinct statuses see them. */
  predicate AllTrue(flags: seq<bool>)
  {
    forall k :: 0 <= k < |flags| ==> flags[k]
  }

  function Statuses(flags: seq<bool>): set<bool>
  {
    set k | 0 <= k < |flags| :: flags[k]
  }

  datatype DenoiseMode = Alias | Mixed | Subtract

  /** The branch `_add_denoised` takes for the product's denoised statuses. */
  function ModeOf(flags: seq<bool>): DenoiseMode
  {
    if AllTrue(flags) then Alias
    else if |Statuses(flags)| != 1 then Mixed
    else Subtract
  }

  /** The three outcomes: an alias when every polarisation (vacuously, none)
      is already denoised, an error when statuses are mixed, a subtraction
      when none is denoised. */
  lemma DenoiseModes(flags: seq<bool>)
    ensures ModeOf(flags) == Alias <==> forall k :: 0 <= k < |flags| ==> flags[k]
    ensures ModeOf(flags) == Mixed <==> (exists k :: 0 <= k < |flags| && flags[k]) && (exists k :: 0 <= k < |flags| && !flags[k])
    ensures ModeOf(flags) == Subtract <==> |flags| > 0 && forall k :: 0 <= k < |flags| ==> !flags[k]
  {
    if !AllTrue(flags) {
      var f :| 0 <= f < |flags| && !flags[f];
      assert false in Statuses(flags);
      if exists t :: 0 <= t < |flags| && flags[t] {
        var t :| 0 <= t < |flags| && flags[t];
        assert true in Statuses(flags);
        BothBools(Statuses(flags));
      } else {
        forall b | b in Statuses(flags)
          ensures !b
        {
          var k :| 0 <= k < |flags| && flags[k] == b;
        }
        assert Statuses(flags) == {false};
      }
    } else if |flags| > 0 {
      assert flags[0];
    }
  }

  lemma BothBools(s: set<bool>)
    requires true in s && false in s
    ensures |s| == 2
  {
    forall x | x in s
      ensures x in {false, true}
    {
      if x { } else { }
    }
    assert s == {false, true};
  }

  /** One variable of `_add_denoised`. The noise name is formed before the
      raw variable is looked for, so an empty name is an IndexError. */
  function DenoiseStep(varName: string, clip: bool, flags: seq<bool>, ds: map<string, Field>, n: nat): Result<map<string, Field>>
    requires Aligned(ds, n)
  {
    if |varName| == 0 then Failure(IndexError)
    else
      var raw := varName + "_raw";
      var noise := NoiseName(varName);
      if raw !in ds then Success(ds)
      else match ModeOf(flags)
        case Alias => Success(ds[varName := ds[raw]])
        case Mixed => Failure(NotImplementedError("semi denoised products not yet implemented"))
        case Subtract =>
          if noise !in ds then Failure(KeyError(noise))
          else Success(ds[varName := DenoiseField(ds[raw], ds[noise], clip)])
  }

  lemma DenoiseStepAligned(varName: string, clip: bool, flags: seq<bool>, ds: map<string, Field>, n: nat)
    requires Aligned(ds, n)
    ensures DenoiseStep(varName, clip, flags, ds, n).Success? ==> Aligned(DenoiseStep(varName, clip, flags, ds, n).value, n)
  {
  }

  /** `_add_denoised` over `names`, in order. */
  function DenoiseSpec(names: seq<string>, clip: bool, flags: seq<bool>, ds: map<string, Field>, n: nat): (r: Result<map<string, Field>>)
    requires Aligned(ds, n)
    ensures r.Success? ==> Aligned(r.value, n)
  {
    if |names| == 0 then Success(ds)
    else
      var before :- DenoiseSpec(names[..|names| - 1], clip, flags, ds, n);
      DenoiseStepAligned(names[|names| - 1], clip, flags, before, n);
      DenoiseStep(names[|names| - 1], clip, flags, before, n)
  }

  /** In the subtraction branch with clipping, a denoised variable is never
      negative, is NaN where raw or noise is, is raw - noise wherever the
      signal is at or above the noise and exactly 0 below it. */
  lemma DenoisedSubtraction(varName: string, flags: seq<bool>, ds: map<string, Field>, n: nat)
    requires Aligned(ds, n)
    requires |varName| > 0 && varName + "_raw" in ds && NoiseName(varName) in ds
    requires |flags| > 0 && forall k :: 0 <= k < |flags| ==> !flags[k]
    ensures var r := DenoiseStep(varName, true, flags, ds, n);
            var raw := ds[varName + "_raw"];
            var noise := ds[NoiseName(varName)];
            r.Success? && varName in r.value && |r.value[varName]| == n &&
            forall i :: 0 <= i < n ==>
              (r.value[varName][i].Some? <==> raw[i].Some? && noise[i].Some?) &&
              (r.value[varName][i].Some? ==> r.value[varName][i].value >= 0.0) &&
              (r.value[varName][i].Some? && raw[i].value >= noise[i].value ==>
                 r.value[varName][i].value == raw[i].value - noise[i].value) &&
              (r.value[varName][i].Some? && raw[i].value < noise[i].value ==>
                 r.value[varName][i].value == 0.0)
  {
    DenoiseModes(flags);
  }

  /** An already denoised product gets each denoised variable as an alias
      of its raw variable. */
  lemma DenoisedAlias(varName: string, clip: bool, flags: seq<bool>, ds: map<string, Field>, n: nat)
    requires Aligned(ds, n)
    requires |varName| > 0 && varName + "_raw" in ds
    requires forall k :: 0 <= k < |flags| ==> flags[k]
    ensures DenoiseStep(varName, clip, flags, ds, n) == Success(ds[varName := ds[varName + "_raw"]])
  {
    DenoiseModes(flags);
  }

  /** A variable whose raw version is absent is skipped without error,
      whatever the statuses. */
  lemma DenoiseSkipsMissing(varName: string, clip: bool, flags: seq<bool>, ds: map<string, Field>, n: nat)
    requires Aligned(ds, n)
    requires |varName| > 0 && varName + "_raw" !in ds
    ensures DenoiseStep(varName, clip, flags, ds, n) == Success(ds)
  {
  }

  /** Mixed statuses are an error as soon as a raw variable is present. */
  lemma DenoiseMixedFails(varName: string, clip: bool, flags: seq<bool>, ds: map<string, Field>, n: nat)
    requires Aligned(ds, n)
    requires |varName| > 0 && varName + "_raw" in ds
    requires (exists k :: 0 <= k < |flags| && flags[k]) && (exists k :: 0 <= k < |flags| && !flags[k])
    ensures DenoiseStep(varName, clip, flags, ds, n).Failure?
    ensures DenoiseStep(varName, clip, flags, ds, n).error.NotImplementedError?
  {
    DenoiseModes(flags);
  }

  /** The `sliced` flag after a new dataset is set: once true it stays true;
      otherwise it records whether the atrack, xtrack or pol coordinates
      changed. */
  function NextSliced(sliced: bool, before: Dataset, after: Dataset): (s: bool)
    ensures sliced ==> s
    ensures !sliced ==> (s <==> before.atrack != after.atrack || before.xtrack != after.xtrack || before.pol != after.pol)
  {
    if sliced then true
    else before.atrack != after.atrack || before.xtrack != after.xtrack || before.pol != after.pol
  }

  /** A Sentinel-1 dataset object: the product name and denoised statuses
      from its metadata, the loaded LUTs, the current dataset and whether it
      is a slice of the original. */
  class SentinelDataset {
    const metaName: string
    const denoised: seq<bool>
    const luts: map<string, Field>
    var dataset: Dataset
    var sliced: bool

    constructor (metaName: string, denoised: seq<bool>, luts: map<string, Field>, dataset: Dataset)
      ensures this.metaName == metaName && this.denoised == denoised && this.luts == luts
      ensures this.dataset == dataset && !sliced
    {
      this.metaName := metaName;
      this.denoised := denoised;
      this.luts := luts;
      this.dataset := dataset;
      this.sliced := false;
    }

    /** The loop of the constructor over `VarLutOrder`: merge each
        calibrated variable and its noise equivalent when its LUT exists. */
    method StageCalibration() returns (err: Option<Error>)
      requires Aligned(luts, |dataset.dn|)
      modifies this
      ensures dataset.name == old(dataset.name) && dataset.atrack == old(dataset.atrack)
      ensures dataset.xtrack == old(dataset.xtrack) && dataset.pol == old(dataset.pol) && dataset.dn == old(dataset.dn)
      ensures sliced == old(sliced)
      ensures var spec := StageSpec(VarLutOrder, luts, old(dataset.dn), old(dataset.vars));
              (err.None? <==> spec.Success?) &&
              (err.Some? ==> err.value == spec.error) &&
              (err.None? ==> dataset.vars == spec.value)
    {
      var order := VarLutOrder;
      var start := dataset.vars;
      for i := 0 to |order|
        invariant dataset.name == old(dataset.name) && dataset.atrack == old(dataset.atrack)
        invariant dataset.xtrack == old(dataset.xtrack) && dataset.pol == old(dataset.pol) && dataset.dn == old(dataset.dn)
        invariant sliced == old(sliced)
        invariant StageSpec(order[..i], luts, dataset.dn, start) == Success(dataset.vars)
      {
        var varName := order[i];
        assert order[..i + 1][..i] == order[..i];
        if MapVarLut[varName] in luts {
          var cal := ApplyCalibrationLut(varName, luts, dataset.dn);
          var noise := GetNoise(varName, luts);
          if noise.Failure? {
            err := Some(noise.error);
            StageFailureSticks(order, i + 1, luts, dataset.dn, start);
            return;
          }
          dataset := dataset.(vars := dataset.vars[cal.value.name := cal.value.field]);
          dataset := dataset.(vars := dataset.vars[noise.value.name := noise.value.field]);
        }
      }
      assert order[..|order|] == order;
      err := None;
    }

    /** `_add_denoised`: adds each denoised variable of `names` to `ds`
        (which it returns) according to the product's denoised statuses. */
    method AddDenoised(ds: map<string, Field>, n: nat, clip: bool, names: seq<string>) returns (r: Result<map<string, Field>>)
      requires Aligned(ds, n)
      ensures r == DenoiseSpec(names, clip, denoised, ds, n)
    {
      var cur := ds;
      for i := 0 to |names|
        invariant DenoiseSpec(names[..i], clip, denoised, ds, n) == Success(cur)
        invariant Aligned(cur, n)
      {
        var varName := names[i];
        assert names[..i + 1][..i] == names[..i];
        if |varName| == 0 {
          r := Failure(IndexError);
          DenoiseFailureSticks(names, i + 1, clip, denoised, ds, n);
          return;
        }
        var raw := varName + "_raw";
        var noise := "ne" + [varName[0]] + "z";
        if raw !in cur {
          continue;
        }
        if AllTrue(denoised) {
          cur := cur[varName := cur[raw]];
        } else if |Statuses(denoised)| != 1 {
          r := Failure(NotImplementedError("semi denoised products not yet implemented"));
          DenoiseFailureSticks(names, i + 1, clip, denoised, ds, n);
          return;
        } else {
          if noise !in cur {
            r := Failure(KeyError(noise));
            DenoiseFailureSticks(names, i + 1, clip, denoised, ds, n);
            return;
          }
          cur := cur[varName := DenoiseField(cur[raw], cur[noise], clip)];
        }
      }
      assert names[..|names|] == names;
      r := Success(cur);
    }

    /** The `dataset` setter: only a dataset of the same product is
        accepted; `sliced` becomes (and stays) true once coordinates
        change. */
    method SetDataset(ds: Dataset) returns (err: Option<Error>)
      modifies this
      ensures metaName != ds.name ==> err == Some(ValueError("dataset must be same kind as original one.")) && unchanged(this)
      ensures metaName == ds.name ==> err.None? && dataset == ds && sliced == NextSliced(old(sliced), old(dataset), ds)
    {
      if metaName == ds.name {
        if !sliced {
          sliced := dataset.atrack != ds.atrack || dataset.xtrack != ds.xtrack || dataset.pol != ds.pol;
        }
        dataset := ds;
        err := None;
      } else {
        err := Some(ValueError("dataset must be same kind as original one."));
      }
    }
  }

  /** Once a prefix of `_add_denoised` fails, the whole call fails the same
      way. */
  lemma {:induction false} DenoiseFailureSticks(names: seq<string>, i: nat, clip: bool, flags: seq<bool>, ds: map<string, Field>, n: nat)
    requires Aligned(ds, n)
    requires i <= |names|
    requires DenoiseSpec(names[..i], clip, flags, ds, n).Failure?
    ensures DenoiseSpec(names, clip, flags, ds, n) == DenoiseSpec(names[..i], clip, flags, ds, n)
    decreases |names|
  {
    if i < |names| {
      var init := names[..|names| - 1];
      assert init[..i] == names[..i];
      DenoiseFailureSticks(init, i, clip, flags, ds, n);
    } else {
      assert names[..i] == names;
    }
  }

  /** The constructor's sequence: add `noise_lut`, merge the visible (or all)
      LUTs into the loaded dataset, run the calibration stage, then add the
      denoised variables with clipping. The object starts unsliced. */
  method Open(metaName: string, denoised: seq<bool>, loaded: map<string, Field>, ds0: Dataset, withLuts: bool)
    returns (r: Result<SentinelDataset>)
    requires Aligned(loaded, |ds0.dn|) && Aligned(ds0.vars, |ds0.dn|)
    ensures r.Success? ==> fresh(r.value) && !r.value.sliced && r.value.metaName == metaName
    ensures r.Success? ==> r.value.luts == WithNoiseLut(loaded) && r.value.dataset.dn == ds0.dn
    ensures var merged := MergeLuts(ds0.vars, WithNoiseLut(loaded), withLuts);
            merged.Failure? ==> r == Failure(merged.error)
    ensures var merged := MergeLuts(ds0.vars, WithNoiseLut(loaded), withLuts);
            var staged := if merged.Success? then StageSpec(VarLutOrder, WithNoiseLut(loaded), ds0.dn, merged.value) else merged;
            merged.Success? && staged.Failure? ==> r == Failure(staged.error)
    ensures var merged := MergeLuts(ds0.vars, WithNoiseLut(loaded), withLuts);
            var staged := if merged.Success? then StageSpec(VarLutOrder, WithNoiseLut(loaded), ds0.dn, merged.value) else merged;
            merged.Success? && staged.Success? ==>
              var done := DenoiseSpec(DefaultDenoiseVars, true, denoised, staged.value, |ds0.dn|);
              (done.Failure? ==> r == Failure(done.error)) &&
              (done.Success? ==> r.Success? && r.value.dataset.vars == done.value)
  {
    var luts := WithNoiseLut(loaded);
    var merged := MergeLuts(ds0.vars, luts, withLuts);
    if merged.Failure? {
      return Failure(merged.error);
    }
    var s := new SentinelDataset(metaName, denoised, luts, ds0.(vars := merged.value));
    var err := s.StageCalibration();
    if err.Some? {
      return Failure(err.value);
    }
    var d := s.AddDenoised(s.dataset.vars, |ds0.dn|, true, DefaultDenoiseVars);
    if d.Failure? {
      return Failure(d.error);
    }
    s.dataset := s.dataset.(vars := d.value);
    r := Success(s);
  }
}
