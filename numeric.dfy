/** Arithmetic helpers shared by the engine: Python's `int()` truncation,
    clamping, and the `x or now` idiom on optional timestamps. */
module Numeric {
  import opened Wrappers

  /** Python `int(x)` on a float: truncation toward zero. */
  function Trunc(x: real): (r: int)
    ensures 0.0 <= x ==> r as real <= x < r as real + 1.0
    ensures x < 0.0 ==> r as real - 1.0 < x <= r as real
  {
    if 0.0 <= x then x.Floor else -((-x).Floor)
  }

  /** Python `int(a / b)` on two integers: the quotient truncated toward
      zero, computed without going through a float. */
  function TruncDiv(a: int, b: int): (r: int)
    requires b != 0
    ensures a >= 0 && b > 0 ==> r == a / b
    ensures (a >= 0) == (b > 0) ==> r >= 0
  {
    if (a >= 0) == (b > 0) then NatQuotient(Abs(a), Abs(b)) else -(NatQuotient(Abs(a), Abs(b)) as int)
  }

  /** Quotient of two naturals, non-negative. */
  function NatQuotient(n: nat, d: nat): (q: nat)
    requires d > 0
    ensures q * d <= n < q * d + d
  {
    n / d
  }

  function Abs(a: int): (r: nat)
    ensures r == a || r == -a
  {
    if a < 0 then -a else a
  }

  /** The integer quotient agrees with truncating the exact real quotient. */
  lemma TruncDivIsTrunc(a: int, b: int)
    requires b != 0
    ensures TruncDiv(a, b) == Trunc(a as real / b as real)
  {
    var x := Abs(a) as real / Abs(b) as real;
    FloorOfQuotient(Abs(a), Abs(b));
    QuotientSign(a, b);
    if (a >= 0) != (b > 0) && x != 0.0 {
      assert a as real / b as real == -x;
    }
  }

  lemma FloorOfQuotient(n: nat, d: nat)
    requires d > 0
    ensures 0.0 <= n as real / d as real
    ensures (n as real / d as real).Floor == n / d
  {
    var q := n / d;
    var rem := n % d;
    assert n == q * d + rem;
    assert n as real == q as real * d as real + rem as real;
    var f := rem as real / d as real;
    assert 0.0 <= f < 1.0;
    assert n as real / d as real == q as real + f;
  }

  lemma QuotientSign(a: int, b: int)
    requires b != 0
    ensures (a >= 0) == (b > 0) ==> a as real / b as real == Abs(a) as real / Abs(b) as real
    ensures (a >= 0) != (b > 0) ==> a as real / b as real == -(Abs(a) as real / Abs(b) as real)
  {
  }

  function MinR(a: real, b: real): (r: real)
    ensures r <= a && r <= b && (r == a || r == b)
  {
    if a <= b then a else b
  }

  function MaxR(a: real, b: real): (r: real)
    ensures a <= r && b <= r && (r == a || r == b)
  {
    if a <= b then b else a
  }

  /** `max(0.0, min(1.0, x))` */
  function Clamp01(x: real): (r: real)
    ensures 0.0 <= r <= 1.0
    ensures 0.0 <= x <= 1.0 ==> r == x
    ensures x < 0.0 ==> r == 0.0
    ensures 1.0 < x ==> r == 1.0
  {
    MaxR(0.0, MinR(1.0, x))
  }

  /** Python `t or now` for an optional float timestamp `t`: both `None` and
      `0.0` are falsy, so either one yields `now`. */
  function OrNow(t: Option<real>, now: real): (r: real)
    ensures t.Some? && t.value != 0.0 ==> r == t.value
    ensures t.None? || t.value == 0.0 ==> r == now
  {
    match t
    case Some(v) => if v != 0.0 then v else now
    case None => now
  }
}
