/** The affine transform of the `affine` package as used for the approximate
    image-to-ground mapping: `t * (x, y) == (a*x + b*y + c, d*x + e*y + f)`,
    and `~t` its inverse, refused for a degenerate (zero determinant)
    transform. */
module AffineMap {
  import opened Common

  datatype Affine = Affine(a: real, b: real, c: real, d: real, e: real, f: real)
  {
    /** `self * (x, y)` */
    function Apply(x: real, y: real): (real, real)
    {
      (a * x + b * y + c, d * x + e * y + f)
    }

    function Det(): real { a * e - b * d }
  }

  /** `~t`: the coefficients of the inverse, from the reciprocal of the
      determinant; a zero determinant raises. */
  function Invert(t: Affine): (r: Result<Affine>)
    ensures r.Failure? <==> t.Det() == 0.0
    ensures r.Failure? ==> r.error == NotInvertible
  {
    if t.Det() == 0.0 then Failure(NotInvertible)
    else
      var k := 1.0 / t.Det();
      var ra := t.e * k;
      var rb := -t.b * k;
      var rd := -t.d * k;
      var re := t.a * k;
      Success(Affine(ra, rb, -t.c * ra - t.f * rb, rd, re, -t.c * rd - t.f * re))
  }

  /** `~t * (t * (x, y)) == (x, y)` */
  lemma InvertAfterApply(t: Affine, x: real, y: real)
    requires t.Det() != 0.0
    ensures Invert(t).Success?
    ensures var p := t.Apply(x, y); Invert(t).value.Apply(p.0, p.1) == (x, y)
  {
    var k := 1.0 / t.Det();
    assert k * (t.a * t.e - t.b * t.d) == 1.0;
    var inv := Invert(t).value;
    assert inv == Affine(t.e * k, -t.b * k, -t.c * (t.e * k) - t.f * (-t.b * k),
                         -t.d * k, t.a * k, -t.c * (-t.d * k) - t.f * (t.a * k));
    var p := t.Apply(x, y);
    BackFirst(t.a, t.b, t.c, t.d, t.e, t.f, k, x, y);
    BackSecond(t.a, t.b, t.c, t.d, t.e, t.f, k, x, y);
    assert inv.Apply(p.0, p.1).0 == x;
    assert inv.Apply(p.0, p.1).1 == y;
  }

  /** `t * (~t * (u, v)) == (u, v)` */
  lemma ApplyAfterInvert(t: Affine, u: real, v: real)
    requires t.Det() != 0.0
    ensures Invert(t).Success?
    ensures var p := Invert(t).value.Apply(u, v); t.Apply(p.0, p.1) == (u, v)
  {
    var k := 1.0 / t.Det();
    assert k * (t.a * t.e - t.b * t.d) == 1.0;
    var inv := Invert(t).value;
    assert inv == Affine(t.e * k, -t.b * k, -t.c * (t.e * k) - t.f * (-t.b * k),
                         -t.d * k, t.a * k, -t.c * (-t.d * k) - t.f * (t.a * k));
    var p := inv.Apply(u, v);
    ForthFirst(t.a, t.b, t.c, t.d, t.e, t.f, k, u, v);
    ForthSecond(t.a, t.b, t.c, t.d, t.e, t.f, k, u, v);
    assert t.Apply(p.0, p.1).0 == u;
    assert t.Apply(p.0, p.1).1 == v;
  }

  // Scalar steps of the two round trips; each one is a single identity of
  // linear combinations under k * (a*e - b*d) == 1.

  lemma Combine(p: real, q: real, r: real, s: real, w: real, z: real, x: real, y: real)
    ensures p * (q * x + r * y) + s * (w * x + z * y) == (p * q + s * w) * x + (p * r + s * z) * y
  {
  }

  lemma Shift(p: real, s: real, u: real, v: real, c: real, f: real)
    ensures p * u + s * v + (-c * p - f * s) == p * (u - c) + s * (v - f)
  {
  }

  lemma RowOne(a: real, b: real, d: real, e: real, k: real)
    requires k * (a * e - b * d) == 1.0
    ensures (e * k) * a + (-b * k) * d == 1.0 && (e * k) * b + (-b * k) * e == 0.0
  {
    assert (e * k) * a + (-b * k) * d == k * (a * e - b * d);
  }

  lemma RowTwo(a: real, b: real, d: real, e: real, k: real)
    requires k * (a * e - b * d) == 1.0
    ensures (-d * k) * a + (a * k) * d == 0.0 && (-d * k) * b + (a * k) * e == 1.0
  {
    assert (-d * k) * b + (a * k) * e == k * (a * e - b * d);
  }

  /** First coordinate of `~t * (t * (x, y))`. */
  lemma BackFirst(a: real, b: real, c: real, d: real, e: real, f: real, k: real, x: real, y: real)
    requires k * (a * e - b * d) == 1.0
    ensures (e * k) * (a * x + b * y + c) + (-b * k) * (d * x + e * y + f) + (-c * (e * k) - f * (-b * k)) == x
  {
    var u := a * x + b * y + c;
    var v := d * x + e * y + f;
    Shift(e * k, -b * k, u, v, c, f);
    assert u - c == a * x + b * y;
    assert v - f == d * x + e * y;
    Combine(e * k, a, b, -b * k, d, e, x, y);
    RowOne(a, b, d, e, k);
  }

  /** Second coordinate of `~t * (t * (x, y))`. */
  lemma BackSecond(a: real, b: real, c: real, d: real, e: real, f: real, k: real, x: real, y: real)
    requires k * (a * e - b * d) == 1.0
    ensures (-d * k) * (a * x + b * y + c) + (a * k) * (d * x + e * y + f) + (-c * (-d * k) - f * (a * k)) == y
  {
    var u := a * x + b * y + c;
    var v := d * x + e * y + f;
    Shift(-d * k, a * k, u, v, c, f);
    assert u - c == a * x + b * y;
    assert v - f == d * x + e * y;
    Combine(-d * k, a, b, a * k, d, e, x, y);
    RowTwo(a, b, d, e, k);
  }

  lemma ColOne(a: real, b: real, d: real, e: real, k: real)
    requires k * (a * e - b * d) == 1.0
    ensures a * (e * k) + b * (-d * k) == 1.0 && a * (-b * k) + b * (a * k) == 0.0
  {
    assert a * (e * k) + b * (-d * k) == k * (a * e - b * d);
  }

  lemma ColTwo(a: real, b: real, d: real, e: real, k: real)
    requires k * (a * e - b * d) == 1.0
    ensures d * (e * k) + e * (-d * k) == 0.0 && d * (-b * k) + e * (a * k) == 1.0
  {
    assert d * (-b * k) + e * (a * k) == k * (a * e - b * d);
  }

  /** `p*(ra*u + rb*v - c*ra - f*rb) + q*(rd*u + re*v - c*rd - f*re) + g`
      regrouped by the column sums `p*ra + q*rd` and `p*rb + q*re`. */
  lemma Regroup(p: real, q: real, g: real, ra: real, rb: real, rd: real, re: real, c: real, f: real, u: real, v: real)
    ensures p * (ra * u + rb * v + (-c * ra - f * rb)) + q * (rd * u + re * v + (-c * rd - f * re)) + g
         == (p * ra + q * rd) * (u - c) + (p * rb + q * re) * (v - f) + g
  {
  }

  /** First coordinate of `t * (~t * (u, v))`. */
  lemma ForthFirst(a: real, b: real, c: real, d: real, e: real, f: real, k: real, u: real, v: real)
    requires k * (a * e - b * d) == 1.0
    ensures a * ((e * k) * u + (-b * k) * v + (-c * (e * k) - f * (-b * k)))
          + b * ((-d * k) * u + (a * k) * v + (-c * (-d * k) - f * (a * k))) + c == u
  {
    Regroup(a, b, c, e * k, -b * k, -d * k, a * k, c, f, u, v);
    ColOne(a, b, d, e, k);
  }

  /** Second coordinate of `t * (~t * (u, v))`. */
  lemma ForthSecond(a: real, b: real, c: real, d: real, e: real, f: real, k: real, u: real, v: real)
    requires k * (a * e - b * d) == 1.0
    ensures d * ((e * k) * u + (-b * k) * v + (-c * (e * k) - f * (-b * k)))
          + e * ((-d * k) * u + (a * k) * v + (-c * (-d * k) - f * (a * k))) + f == v
  {
    Regroup(d, e, f, e * k, -b * k, -d * k, a * k, c, f, u, v);
    ColTwo(a, b, d, e, k);
  }
}
