/**
 * Values the shader-property animation engine works with: four-component
 * vectors (Unity's Color and Vector4), opaque texture handles, and the
 * arithmetic helpers of UnityEngine.Mathf that the engine relies on
 * (Clamp01, Lerp, RoundToInt), over exact reals.
 */
module SSUValues {

  /** A Color (r, g, b, a) or a Vector4 (x, y, z, w). */
  datatype Vec4 = Vec4(x: real, y: real, z: real, w: real)

  /** An opaque handle to a (non-null) Texture object; equality is reference equality. */
  datatype TexRef = TexRef(id: nat)

  /** Mathf.Clamp01. */
  function Clamp01(v: real): (r: real)
    ensures 0.0 <= r <= 1.0
    ensures 0.0 <= v <= 1.0 ==> r == v
    ensures v < 0.0 ==> r == 0.0
    ensures v > 1.0 ==> r == 1.0
  {
    if v < 0.0 then 0.0 else if v > 1.0 then 1.0 else v
  }

  /** Mathf.Lerp: the interpolation parameter is clamped into [0, 1] first. */
  function Lerp(a: real, b: real, t: real): (r: real)
    ensures t <= 0.0 ==> r == a
    ensures t >= 1.0 ==> r == b
    ensures a <= b ==> a <= r <= b
    ensures b <= a ==> b <= r <= a
  {
    var u := Clamp01(t);
    var d := b - a;
    ScaledWithin(d, u);
    assert a <= b ==> a <= a + d * u <= a + d == b;
    assert b <= a ==> b == a + d <= a + d * u <= a;
    a + d * u
  }

  /** A difference scaled by a factor in [0, 1] stays between 0 and the difference. */
  lemma ScaledWithin(d: real, u: real)
    requires 0.0 <= u <= 1.0
    ensures d >= 0.0 ==> 0.0 <= d * u <= d
    ensures d <= 0.0 ==> d <= d * u <= 0.0
  {
    var e := 1.0 - u;
    assert d * u + d * e == d;
    if d >= 0.0 {
      assert d * u >= 0.0 && d * e >= 0.0;
    } else {
      var n := -d;
      assert n * u >= 0.0 && n * e >= 0.0;
      assert d * u == -(n * u) && d * e == -(n * e);
    }
  }

  /** Color.Lerp and Vector4.Lerp: component-wise Lerp. */
  function Lerp4(a: Vec4, b: Vec4, t: real): (r: Vec4)
    ensures t <= 0.0 ==> r == a
    ensures t >= 1.0 ==> r == b
  {
    Vec4(Lerp(a.x, b.x, t), Lerp(a.y, b.y, t), Lerp(a.z, b.z, t), Lerp(a.w, b.w, t))
  }

  /**
   * Mathf.RoundToInt: rounds to the nearest integer; a value exactly halfway
   * between two integers goes to the even one (the default of Math.Round).
   */
  function RoundToInt(v: real): (r: int)
    ensures (r as real) - 0.5 <= v <= (r as real) + 0.5
    ensures v == (v.Floor as real) ==> r == v.Floor
  {
    var f := v.Floor;
    var frac := v - f as real;
    if frac < 0.5 then f
    else if frac > 0.5 then f + 1
    else if f % 2 == 0 then f else f + 1
  }
}
