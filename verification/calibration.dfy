/** Per-pixel radiometric calibration of Sentinel-1 digital numbers, following
    the ESA "Radiometric calibration of Level-1 products" scheme: a calibrated
    value is |dn|^2 / lut^2, a noise equivalent is noise_lut / lut^2, and a
    denoised value is raw - noise, clipped at zero. */
module Calibration {
  import opened Common

  /** A digital number; detected (GRD) products have `im == 0`. */
  datatype Complex = Complex(re: real, im: real)

  const Zero := Complex(0.0, 0.0)

  /** `x ** 2` */
  function Sq(x: real): real { x * x }

  /** `np.abs(dn) ** 2` */
  function AbsSq(z: Complex): (r: real)
    ensures r >= 0.0
    ensures r == 0.0 ==> z == Zero
    ensures z == Zero ==> r == 0.0
  {
    SqNonNeg(z.re);
    SqNonNeg(z.im);
    assert z.re != 0.0 ==> Sq(z.re) > 0.0 by { if z.re != 0.0 { SqPos(z.re); } }
    assert z.im != 0.0 ==> Sq(z.im) > 0.0 by { if z.im != 0.0 { SqPos(z.im); } }
    Sq(z.re) + Sq(z.im)
  }

  /** `value * lut ** 2`: a calibrated value brought back to the digital
      number's power scale. */
  function Power(v: real, lut: real): real { v * Sq(lut) }

  lemma MulPos(x: real, y: real)
    requires x > 0.0 && y > 0.0
    ensures x * y > 0.0
  {
  }

  /** The square of a non-zero number is positive (argued through
      x^2 / |x| == |x|, which keeps the solver away from the bare square). */
  lemma SqPos(x: real)
    requires x != 0.0
    ensures Sq(x) > 0.0
  {
    var a := if x > 0.0 then x else -x;
    assert Sq(x) == a * a;
    assert Sq(x) / a == a;
    MulPos(a, Sq(x) / a);
  }

  lemma SqNonNeg(x: real)
    ensures Sq(x) >= 0.0
  {
    if x != 0.0 { SqPos(x); }
  }

  lemma MulNonNeg(x: real, y: real)
    requires y >= 0.0
    ensures x >= 0.0 ==> x * y >= 0.0
  {
    if x > 0.0 && y > 0.0 { MulPos(x, y); }
  }

  /** Dividing by a positive number keeps the sign and is undone by
      multiplying back. */
  lemma DivPositive(a: real, b: real)
    requires b > 0.0
    ensures (a / b) * b == a
    ensures a / b > 0.0 <==> a > 0.0
    ensures a / b >= 0.0 <==> a >= 0.0
  {
    var q := a / b;
    if q > 0.0 {
      MulPos(q, b);
    } else if q < 0.0 {
      MulPos(-q, b);
      assert (-q) * b == -a;
    }
  }

  /** One pixel of `_apply_calibration_lut`: |dn|^2 / lut^2, with every
      non-positive result turned into NaN by `res.where(res > 0)`. */
  function CalibratePixel(dn: Complex, lut: real): (r: Pixel)
    ensures r.Some? <==> dn != Zero && lut != 0.0
    ensures r.Some? ==> r.value > 0.0 && Power(r.value, lut) == AbsSq(dn)
    ensures r != Some(0.0)
  {
    if lut != 0.0 then
      SqPos(lut);
      DivPositive(AbsSq(dn), Sq(lut));
      var v := AbsSq(dn) / Sq(lut);
      if v > 0.0 then Some(v) else None
    else None
  }

  /** One pixel of `_get_noise`: noise_lut / lut^2. */
  function NoisePixel(noise: real, lut: real): (r: Pixel)
    ensures r.Some? <==> lut != 0.0
    ensures r.Some? ==> Power(r.value, lut) == noise
  {
    if lut != 0.0 then
      SqPos(lut);
      DivPositive(noise, Sq(lut));
      Some(noise / Sq(lut))
    else None
  }

  /** One pixel of the subtraction branch of `_add_denoised`:
      raw - noise, clipped at 0 when `clip` holds; NaN propagates. */
  function DenoisePixel(raw: Pixel, noise: Pixel, clip: bool): (r: Pixel)
    ensures r.Some? <==> raw.Some? && noise.Some?
    ensures r.Some? && clip ==> r.value >= 0.0
    ensures r.Some? && raw.value >= noise.value ==> r.value == raw.value - noise.value
    ensures r.Some? && raw.value < noise.value ==> r.value == (if clip then 0.0 else raw.value - noise.value)
  {
    match (raw, noise)
    case (Some(x), Some(n)) =>
      var d := x - n;
      if clip && d < 0.0 then Some(0.0) else Some(d)
    case _ => None
  }

  /** One pixel of `reverse_calibration_lut`: sqrt(value * lut^2), where
      `sqrt` is numpy's square root (NaN for a negative argument). */
  function ReversePixel(v: Pixel, lut: real, sqrt: real -> real): (r: Pixel)
    ensures v.None? ==> r.None?
    ensures v.Some? && (v.value >= 0.0 || lut == 0.0) ==> r == Some(sqrt(Power(v.value, lut)))
    ensures v.Some? && v.value < 0.0 && lut != 0.0 ==> r.None?
  {
    if v.Some? then
      SqNonNeg(lut);
      MulNonNeg(v.value, Sq(lut));
      assert v.value < 0.0 && lut != 0.0 ==> Power(v.value, lut) < 0.0 by {
        if v.value < 0.0 && lut != 0.0 {
          SqPos(lut);
          MulPos(-v.value, Sq(lut));
          assert (-v.value) * Sq(lut) == -Power(v.value, lut);
        }
      }
      var p := Power(v.value, lut);
      if p >= 0.0 then Some(sqrt(p)) else None
    else None
  }

  /** A digital number of exactly 0 (the sensor fill value) calibrates to
      NaN, never to a numeric 0. */
  lemma ZeroDnIsMissing(lut: real)
    ensures CalibratePixel(Zero, lut) == None
  {
  }

  /** Reversing a calibrated pixel gives sqrt(|dn|^2) back: the magnitude of
      the digital number, its phase being lost. */
  lemma ReverseCalibrateMagnitude(dn: Complex, lut: real, sqrt: real -> real)
    requires dn != Zero && lut != 0.0
    ensures ReversePixel(CalibratePixel(dn, lut), lut, sqrt) == Some(sqrt(AbsSq(dn)))
  {
    var c := CalibratePixel(dn, lut);
  }

  /** For a detected product (real, non-negative digital number) and a square
      root that is correct at dn^2, the round trip gives the digital number. */
  lemma ReverseCalibrateDetected(dn: real, lut: real, sqrt: real -> real)
    requires dn > 0.0 && lut != 0.0
    requires sqrt(Sq(dn)) >= 0.0 && Sq(sqrt(Sq(dn))) == Sq(dn)
    ensures ReversePixel(CalibratePixel(Complex(dn, 0.0), lut), lut, sqrt) == Some(dn)
  {
    ReverseCalibrateMagnitude(Complex(dn, 0.0), lut, sqrt);
    assert AbsSq(Complex(dn, 0.0)) == Sq(dn);
    RootUnique(sqrt(Sq(dn)), dn);
  }

  /** Two non-negative numbers with the same square are equal. */
  lemma RootUnique(s: real, m: real)
    requires s >= 0.0 && m >= 0.0 && Sq(s) == Sq(m)
    ensures s == m
  {
    DiffOfSquares(s, m);
    if s + m != 0.0 {
      ZeroFactor(s - m, s + m);
    }
  }

  lemma DiffOfSquares(s: real, m: real)
    ensures (s - m) * (s + m) == Sq(s) - Sq(m)
  {
  }

  lemma ZeroFactor(a: real, b: real)
    requires a * b == 0.0 && b != 0.0
    ensures a == 0.0
  {
  }

  /** The fill value does not survive the round trip: it comes back NaN. */
  lemma ReverseOfFillIsMissing(lut: real, sqrt: real -> real)
    ensures ReversePixel(CalibratePixel(Zero, lut), lut, sqrt) == None
  {
  }

  /** Raw below its noise equivalent denoises, with clipping, to exactly 0. */
  lemma ClipBelowNoise(raw: real, noise: real)
    requires raw < noise
    ensures DenoisePixel(Some(raw), Some(noise), true) == Some(0.0)
  {
  }

  // Element-wise versions over aligned fields.

  function CalibrateField(dn: seq<Complex>, lut: Field): (r: Field)
    requires |lut| == |dn|
    ensures |r| == |dn|
    ensures forall i :: 0 <= i < |r| ==> r[i] != Some(0.0)
    ensures forall i :: 0 <= i < |r| ==> (r[i].Some? <==> dn[i] != Zero && lut[i].Some? && lut[i].value != 0.0)
    ensures forall i :: 0 <= i < |r| && r[i].Some? ==> Power(r[i].value, lut[i].value) == AbsSq(dn[i])
  {
    seq(|dn|, i requires 0 <= i < |dn| =>
      if lut[i].Some? then CalibratePixel(dn[i], lut[i].value) else None)
  }

  function NoiseField(noise: Field, lut: Field): (r: Field)
    requires |noise| == |lut|
    ensures |r| == |lut|
    ensures forall i :: 0 <= i < |r| ==> (r[i].Some? <==> noise[i].Some? && lut[i].Some? && lut[i].value != 0.0)
    ensures forall i :: 0 <= i < |r| && r[i].Some? ==> Power(r[i].value, lut[i].value) == noise[i].value
  {
    seq(|lut|, i requires 0 <= i < |lut| =>
      if noise[i].Some? && lut[i].Some? then NoisePixel(noise[i].value, lut[i].value) else None)
  }

  function DenoiseField(raw: Field, noise: Field, clip: bool): (r: Field)
    requires |raw| == |noise|
    ensures |r| == |raw|
    ensures forall i :: 0 <= i < |r| ==> (r[i].Some? <==> raw[i].Some? && noise[i].Some?)
    ensures clip ==> forall i :: 0 <= i < |r| && r[i].Some? ==> r[i].value >= 0.0
    ensures forall i :: 0 <= i < |r| && r[i].Some? && raw[i].value >= noise[i].value ==>
              r[i].value == raw[i].value - noise[i].value
    ensures forall i :: 0 <= i < |r| && r[i].Some? && raw[i].value < noise[i].value ==>
              r[i].value == (if clip then 0.0 else raw[i].value - noise[i].value)
  {
    seq(|raw|, i requires 0 <= i < |raw| => DenoisePixel(raw[i], noise[i], clip))
  }

  function ReverseField(v: Field, lut: Field, sqrt: real -> real): (r: Field)
    requires |v| == |lut|
    ensures |r| == |v|
    ensures forall i :: 0 <= i < |r| && (v[i].None? || lut[i].None?) ==> r[i].None?
    ensures forall i :: 0 <= i < |r| && v[i].Some? && lut[i].Some? && (v[i].value >= 0.0 || lut[i].value == 0.0) ==>
              r[i] == Some(sqrt(Power(v[i].value, lut[i].value)))
    ensures forall i :: 0 <= i < |r| && v[i].Some? && v[i].value < 0.0 && lut[i].Some? && lut[i].value != 0.0 ==>
              r[i].None?
  {
    seq(|v|, i requires 0 <= i < |v| =>
      if lut[i].Some? then ReversePixel(v[i], lut[i].value, sqrt) else None)
  }

  /** `noise_lut_range * noise_lut_azi`, element-wise (NaN propagates). */
  function ProductField(x: Field, y: Field): (r: Field)
    requires |x| == |y|
    ensures |r| == |x|
    ensures forall i :: 0 <= i < |r| ==> (r[i].Some? <==> x[i].Some? && y[i].Some?)
    ensures forall i :: 0 <= i < |r| && r[i].Some? ==> r[i].value == x[i].value * y[i].value
  {
    seq(|x|, i requires 0 <= i < |x| =>
      if x[i].Some? && y[i].Some? then Some(x[i].value * y[i].value) else None)
  }

  /** Reversing a calibrated field gives the magnitude of every non-zero
      digital number back, and NaN at every fill value. */
  lemma {:induction false} ReverseCalibrateField(dn: seq<Complex>, lut: Field, sqrt: real -> real)
    requires |lut| == |dn|
    requires forall i :: 0 <= i < |lut| ==> lut[i].Some? && lut[i].value != 0.0
    ensures var back := ReverseField(CalibrateField(dn, lut), lut, sqrt);
            forall i :: 0 <= i < |dn| ==>
              back[i] == (if dn[i] == Zero then None else Some(sqrt(AbsSq(dn[i]))))
  {
    var c := CalibrateField(dn, lut);
    var back := ReverseField(c, lut, sqrt);
    forall i | 0 <= i < |dn|
      ensures back[i] == (if dn[i] == Zero then None else Some(sqrt(AbsSq(dn[i]))))
    {
      if dn[i] == Zero {
        ZeroDnIsMissing(lut[i].value);
      } else {
        ReverseCalibrateMagnitude(dn[i], lut[i].value, sqrt);
      }
    }
  }
}
