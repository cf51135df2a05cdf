/** Points, point arithmetic and the shared small types of the engine library. */
module LibCommon {

  datatype Option<T> = None | Some(value: T)

  /** A screen point `(x, y)`. The library has both `I32Point` and `U16Point`;
      the model uses one unbounded integer pair for both. */
  type Point = (int, int)

  /** The range of a `u16` coordinate. */
  type U16 = x: int | 0 <= x < 0x1_0000

  predicate InU16(p: Point) {
    0 <= p.0 < 0x1_0000 && 0 <= p.1 < 0x1_0000
  }

  function Min(a: int, b: int): int { if a <= b then a else b }

  function Max(a: int, b: int): int { if a <= b then b else a }

  function Abs(a: int): nat { if a < 0 then -a else a }

  /** Rust's integer `/`: the quotient is truncated toward zero, so the
      remainder `a - q * d` has the sign of `a` (Dafny's own `/` is Euclidean). */
  function TruncDiv(a: int, d: int): (q: int)
    requires d != 0
    ensures Abs(a - q * d) < Abs(d)
    ensures a >= 0 ==> a - q * d >= 0
    ensures a <= 0 ==> a - q * d <= 0
  {
    var q := if (a < 0) != (d < 0) then -(Abs(a) / Abs(d)) else Abs(a) / Abs(d);
    TruncRemainder(a, d, q);
    q
  }

  lemma TruncRemainder(a: int, d: int, q: int)
    requires d != 0
    requires q == if (a < 0) != (d < 0) then -(Abs(a) / Abs(d)) else Abs(a) / Abs(d)
    ensures Abs(a - q * d) < Abs(d)
    ensures a >= 0 ==> a - q * d >= 0
    ensures a <= 0 ==> a - q * d <= 0
  {
    var q0, m := Abs(a) / Abs(d), Abs(a) % Abs(d);
    assert Abs(a) == q0 * Abs(d) + m && 0 <= m < Abs(d);
    if d > 0 {
      assert Abs(d) == d;
    } else {
      assert Abs(d) == -d;
      assert q0 * Abs(d) == -(q0 * d);
    }
    assert a - q * d == if a < 0 then -m else m;
  }

  /** Truncation is symmetric around zero, unlike Euclidean division. */
  lemma TruncDivOdd(a: int, d: int)
    requires d != 0
    ensures TruncDiv(-a, d) == -TruncDiv(a, d)
  {
    var q := TruncDiv(a, d);
    assert (-a) - (-q) * d == -(a - q * d);
    TruncDivUnique(-a, d, -q);
  }

  /** The two remainder conditions of `TruncDiv` determine the quotient. */
  lemma TruncDivUnique(a: int, d: int, q: int)
    requires d != 0
    requires Abs(a - q * d) < Abs(d)
    requires a >= 0 ==> a - q * d >= 0
    requires a <= 0 ==> a - q * d <= 0
    ensures q == TruncDiv(a, d)
  {
    var t := TruncDiv(a, d);
    var r, s := a - q * d, a - t * d;
    assert (q - t) * d == s - r;
    if q != t {
      assert Abs(s - r) < Abs(d);
      assert Abs((q - t) * d) >= Abs(d) by {
        AbsMulAtLeast(q - t, d);
      }
      assert false;
    }
  }

  lemma AbsMulAtLeast(k: int, d: int)
    requires k != 0
    ensures Abs(k * d) >= Abs(d)
  {
    if k > 0 {
      if d >= 0 { assert k * d >= d; } else { assert k * d <= d; }
    } else {
      if d >= 0 { assert k * d <= -d; } else { assert k * d >= -d; }
    }
  }

  /** `Arithmetics::add` for points: componentwise sum. */
  function Add(p: Point, q: Point): (r: Point)
  {
    (p.0 + q.0, p.1 + q.1)
  }

  /** `Arithmetics::sub` for points: componentwise difference. */
  function Sub(p: Point, q: Point): (r: Point)
  {
    (p.0 - q.0, p.1 - q.1)
  }

  /** `Arithmetics::div` for points: each component divided with `i32` truncation. */
  function Div(p: Point, divisor: int): (r: Point)
    requires divisor != 0
    ensures Abs(p.0 - r.0 * divisor) < Abs(divisor) && Abs(p.1 - r.1 * divisor) < Abs(divisor)
    ensures (p.0 >= 0 ==> p.0 - r.0 * divisor >= 0) && (p.0 <= 0 ==> p.0 - r.0 * divisor <= 0)
    ensures (p.1 >= 0 ==> p.1 - r.1 * divisor >= 0) && (p.1 <= 0 ==> p.1 - r.1 * divisor <= 0)
  {
    (TruncDiv(p.0, divisor), TruncDiv(p.1, divisor))
  }

  /** Subtracting and adding back the same point is the identity. */
  lemma SubAddRoundTrip(a: Point, b: Point)
    ensures Add(Sub(a, b), b) == a
    ensures Sub(Add(a, b), b) == a
  {
  }

  /** `point_pair_minmax`: the bounding corners `(min x, min y, max x, max y)` of two points. */
  function PointPairMinMax(lhs: Point, rhs: Point): (r: (int, int, int, int))
    ensures r.0 <= lhs.0 && r.0 <= rhs.0 && (r.0 == lhs.0 || r.0 == rhs.0)
    ensures r.1 <= lhs.1 && r.1 <= rhs.1 && (r.1 == lhs.1 || r.1 == rhs.1)
    ensures r.2 >= lhs.0 && r.2 >= rhs.0 && (r.2 == lhs.0 || r.2 == rhs.0)
    ensures r.3 >= lhs.1 && r.3 >= rhs.1 && (r.3 == lhs.1 || r.3 == rhs.1)
  {
    (Min(lhs.0, rhs.0), Min(lhs.1, rhs.1), Max(lhs.0, rhs.0), Max(lhs.1, rhs.1))
  }

  /** The bounding corners do not depend on the order of the two points. */
  lemma PointPairMinMaxSymmetric(lhs: Point, rhs: Point)
    ensures PointPairMinMax(lhs, rhs) == PointPairMinMax(rhs, lhs)
  {
  }

  /** `f32::round` on an exact value: to the nearest integer, halves away from zero.
      The source rounds an `f32` approximation of this value; no property proved
      in this model depends on which integer `Round` returns. */
  function Round(r: real): (n: int)
    ensures -0.5 <= r - n as real <= 0.5
  {
    if r >= 0.0 then (r + 0.5).Floor else -((-r + 0.5).Floor)
  }

  /** A float-to-`u16` cast (`as u16`), which saturates at the bounds. */
  function SatU16(v: int): (r: U16)
    ensures 0 <= v < 0x1_0000 ==> r == v
    ensures v < 0 ==> r == 0
    ensures v >= 0x1_0000 ==> r == 0xFFFF
  {
    if v < 0 then 0 else if v >= 0x1_0000 then 0xFFFF else v
  }

  datatype TextHorizontalAlign = Left | Center

  datatype TextVerticalAlign = Top | Center

  /** The signature of the library's `multiline_text_line_start(line count, line length,
      line index, start, horizontal alignment, vertical alignment)`, which is not part of this model:
      the diagram editor receives it as a value. */
  type LineStartLayout = (nat, nat, nat, Point, TextHorizontalAlign, TextVerticalAlign) -> Point
}
