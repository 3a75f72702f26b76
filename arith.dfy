/** Arithmetic helpers of the ADC emulator: powers of two, clamping, Python's
    truncating int() on a real, and the fixed-point scaling of a voltage.
    Python floats are modelled as exact reals. */
module Arith {

  /** 2 ** n */
  function Pow2(n: nat): (r: nat)
    ensures r >= 1
    ensures n >= 1 ==> r % 2 == 0 && r >= 2
  {
    if n == 0 then 1 else 2 * Pow2(n - 1)
  }

  /** clamp(v, lo, hi) = min(hi, max(lo, v)) */
  function Clamp(v: real, lo: real, hi: real): (r: real)
    ensures lo <= hi ==> lo <= r <= hi
    ensures lo <= v <= hi ==> r == v
    ensures lo <= hi && v < lo ==> r == lo
    ensures v > hi ==> r == hi
  {
    var low := if lo >= v then lo else v;
    if hi <= low then hi else low
  }

  lemma ClampIdempotent(v: real, lo: real, hi: real)
    requires lo <= hi
    ensures Clamp(Clamp(v, lo, hi), lo, hi) == Clamp(v, lo, hi)
  {
  }

  lemma ClampMonotone(v: real, w: real, lo: real, hi: real)
    requires lo <= hi && v <= w
    ensures Clamp(v, lo, hi) <= Clamp(w, lo, hi)
  {
  }

  /** Python's int() on a float: truncation toward zero. */
  function Trunc(x: real): (r: int)
    ensures 0.0 <= x ==> 0 <= r && r as real <= x < r as real + 1.0
    ensures x < 0.0 ==> r <= 0 && r as real - 1.0 < x <= r as real
  {
    if x >= 0.0 then x.Floor else -((-x).Floor)
  }

  lemma TruncMonotone(x: real, y: real)
    requires x <= y
    ensures Trunc(x) <= Trunc(y)
  {
    if 0.0 <= x {
      assert x.Floor <= y.Floor;
    } else if y < 0.0 {
      assert (-y).Floor <= (-x).Floor;
    }
  }

  /** The real number that scale() truncates: v / ref mapped from [-1, 1]
      onto [-(2 ** bits), 2 ** bits - 1]. */
  function ScaleArg(v: real, ref: real, bits: nat): real
    requires ref != 0.0
  {
    var x := v / ref;
    var vmin := -(Pow2(bits) as int);
    var vmax := -vmin - 1;
    var vrange := vmax - vmin;
    ((x + 1.0) / 2.0) * vrange as real + vmin as real
  }

  lemma ScaleArgBounds(v: real, ref: real, bits: nat)
    requires 0.0 <= v <= ref && ref != 0.0
    ensures -0.5 <= ScaleArg(v, ref, bits) <= (Pow2(bits) - 1) as real
  {
    var p := Pow2(bits) as real;
    var x := v / ref;
    assert 0.0 <= x <= 1.0 by {
      assert v == x * ref;
    }
    var t := (x + 1.0) / 2.0;
    var range := 2.0 * p - 1.0;
    assert range >= 1.0;
    assert t * range <= range by {
      assert (1.0 - t) * range >= 0.0;
    }
    assert t * range >= 0.5 * range by {
      assert (t - 0.5) * range >= 0.0;
    }
    assert ScaleArg(v, ref, bits) == t * range - p;
  }

  lemma ScaleArgTop(ref: real, bits: nat)
    requires ref != 0.0
    ensures ScaleArg(ref, ref, bits) == (Pow2(bits) - 1) as real
  {
    var p := Pow2(bits) as real;
    assert ref / ref == 1.0;
    assert ScaleArg(ref, ref, bits) == 1.0 * (2.0 * p - 1.0) - p;
  }

  /** scale(v, ref, bits): the code for voltage v on a reference ref.
      A voltage between 0 and ref gives a code between 0 and 2 ** bits - 1;
      0 maps to 0 (int() truncates -0.5 toward zero) and ref to the top code. */
  function Scale(v: real, ref: real, bits: nat): (r: int)
    requires ref != 0.0
    ensures 0.0 <= v <= ref ==> 0 <= r < Pow2(bits)
    ensures v == 0.0 ==> r == 0
    ensures v == ref ==> r == Pow2(bits) - 1
  {
    var arg := ScaleArg(v, ref, bits);
    assert 0.0 <= v <= ref ==> -0.5 <= arg <= (Pow2(bits) - 1) as real by {
      if 0.0 <= v <= ref { ScaleArgBounds(v, ref, bits); }
    }
    assert v == ref ==> arg == (Pow2(bits) - 1) as real by {
      if v == ref { ScaleArgTop(ref, bits); }
    }
    Trunc(arg)
  }

  lemma ScaleMonotone(v: real, w: real, ref: real, bits: nat)
    requires ref > 0.0 && v <= w
    ensures Scale(v, ref, bits) <= Scale(w, ref, bits)
  {
    var p := Pow2(bits) as real;
    var range := 2.0 * p - 1.0;
    assert v / ref <= w / ref by {
      assert w / ref - v / ref == (w - v) / ref;
    }
    var s := (v / ref + 1.0) / 2.0;
    var t := (w / ref + 1.0) / 2.0;
    assert s * range <= t * range by {
      assert (t - s) * range >= 0.0;
    }
    assert ScaleArg(v, ref, bits) == s * range - p;
    assert ScaleArg(w, ref, bits) == t * range - p;
    TruncMonotone(ScaleArg(v, ref, bits), ScaleArg(w, ref, bits));
  }
}
