/** Option, the stand-in for a nullable reference or an absent engine object. */
module Wrappers {
  datatype Option<+T> = None | Some(value: T)
}

/** The few pieces of Unity's Mathf that the scripts rely on, over real numbers. */
module UnityMath {

  /** Mathf.Clamp01: values below 0 become 0, values above 1 become 1. */
  function Clamp01(x: real): (r: real)
    ensures 0.0 <= r <= 1.0
    ensures 0.0 <= x <= 1.0 ==> r == x
    ensures x < 0.0 ==> r == 0.0
    ensures x > 1.0 ==> r == 1.0
  {
    if x < 0.0 then 0.0 else if x > 1.0 then 1.0 else x
  }

  /** Mathf.Min of two values. */
  function Min(a: real, b: real): (r: real)
    ensures r <= a && r <= b
    ensures r == a || r == b
  {
    if a < b then a else b
  }

  /** Mathf.Lerp: interpolation whose parameter is clamped to [0, 1] first,
      so the result always lies between the two end points. */
  function Lerp(a: real, b: real, t: real): (r: real)
    ensures a <= b ==> a <= r <= b
    ensures b <= a ==> b <= r <= a
    ensures t <= 0.0 ==> r == a
    ensures t >= 1.0 ==> r == b
  {
    var u := Clamp01(t);
    var r := a + (b - a) * u;
    InterpolationBounds(a, b, u, r);
    r
  }

  /** Interpolating with a factor in [0, 1] stays between the end points and hits
      them at 0 and 1. */
  lemma InterpolationBounds(a: real, b: real, u: real, r: real)
    requires 0.0 <= u <= 1.0
    requires r == a + (b - a) * u
    ensures a <= b ==> a <= r <= b
    ensures b <= a ==> b <= r <= a
    ensures u == 0.0 ==> r == a
    ensures u == 1.0 ==> r == b
  {
    ScaleBounds(b - a, u, (b - a) * u);
  }

  /** Lerp is monotone in its parameter when the end points are ordered. */
  lemma LerpMonotone(a: real, b: real, s: real, t: real)
    requires a <= b && s <= t
    ensures Lerp(a, b, s) <= Lerp(a, b, t)
  {
    var u, v := Clamp01(s), Clamp01(t);
    var d := b - a;
    MulNonNegative(d, v - u);
    assert d * v - d * u == d * (v - u);
    assert Lerp(a, b, s) == a + d * u;
    assert Lerp(a, b, t) == a + d * v;
  }

  /** A factor in [0, 1] scales a value `d` to a product `p` between 0 and `d`. */
  lemma ScaleBounds(d: real, u: real, p: real)
    requires 0.0 <= u <= 1.0
    requires p == d * u
    ensures d >= 0.0 ==> 0.0 <= p <= d
    ensures d <= 0.0 ==> d <= p <= 0.0
  {
    assert d * (1.0 - u) == d - p;
    if d >= 0.0 {
      MulNonNegative(d, u);
      MulNonNegative(d, 1.0 - u);
    } else {
      MulNonNegative(-d, u);
      MulNonNegative(-d, 1.0 - u);
      assert (-d) * u == -p;
      assert (-d) * (1.0 - u) == p - d;
    }
  }

  /** The product of two non-negative reals is non-negative. */
  lemma MulNonNegative(x: real, y: real)
    requires x >= 0.0 && y >= 0.0
    ensures x * y >= 0.0
  {
  }
}
