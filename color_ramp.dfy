/**
 * The scalar-to-colour ramp of the quality viewer: a value is placed in
 * [min, max], which is split into four bands of equal width, and mapped
 * onto the five colour stops blue, cyan, green, yellow and red.  Inside a
 * band one channel is interpolated and truncated to an unsigned byte.
 */
module ColorRamp {

  datatype Option<T> = None | Some(value: T)

  /** An unsigned char channel value. */
  type Byte = x: int | 0 <= x < 256

  /** An RGB colour with one unsigned byte per channel. */
  datatype Color = Color(r: Byte, g: Byte, b: Byte)

  const Blue: Color := Color(0, 0, 255)
  const Cyan: Color := Color(0, 255, 255)
  const Green: Color := Color(0, 255, 0)
  const Yellow: Color := Color(255, 255, 0)
  const Red: Color := Color(255, 0, 0)
  /** The colour the ramp starts from before any branch is taken. */
  const White: Color := Color(255, 255, 255)

  /** The k-th of the five evenly spaced breakpoints v0 .. v4 of [min, max]. */
  function Breakpoint(k: int, min: real, max: real): (b: real)
    ensures k == 0 ==> b == min
    ensures k == 4 ==> b == max
    ensures min <= max && 0 <= k <= 4 ==> min <= b <= max
  {
    assert 0 <= k <= 4 ==> k == 0 || k == 1 || k == 2 || k == 3 || k == 4;
    min + (k as real) / 4.0 * (max - min)
  }

  /** The truncating conversion of a value in [0, 255] to an unsigned byte. */
  function ToByte(x: real): (u: Byte)
    requires 0.0 <= x <= 255.0
    ensures u as real <= x < u as real + 1.0
  {
    x.Floor
  }

  /** A scaled fraction s a / w of a part a of a positive whole w lies in [0, s] and reaches s only for the whole. */
  lemma FractionBounds(s: real, a: real, w: real)
    requires 0.0 < s && 0.0 <= a <= w && 0.0 < w
    ensures 0.0 <= s * a / w <= s
    ensures s * a / w == s <==> a == w
  {
    var q := s * a / w;
    assert q * w == s * a;
    if q == s {
      assert s * (w - a) == 0.0;
      assert w - a == 0.0;
    }
    if a == w {
      assert q * w == s * w;
    }
  }

  /**
   * The interpolation offset inside a band [lo, hi] of positive width:
   * 255 times the fraction of the band below value, truncated.
   */
  function BandOffset(value: real, lo: real, hi: real): (u: Byte)
    requires lo < hi && lo <= value <= hi
    ensures value == lo ==> u == 0
    ensures u == 255 <==> value == hi
  {
    FractionBounds(255.0, value - lo, hi - lo);
    ToByte(255.0 * (value - lo) / (hi - lo))
  }

  /**
   * The interpolation offset as the source computes it: for a band of
   * zero width the quotient is 0/0, and converting that NaN to an
   * unsigned char is undefined, which is modelled as None.
   */
  function CastBand(value: real, lo: real, hi: real): (u: Option<Byte>)
    requires lo <= value <= hi
    ensures u.None? <==> lo == hi
    ensures u.Some? ==> u.value == BandOffset(value, lo, hi)
  {
    if lo == hi then None else Some(BandOffset(value, lo, hi))
  }

  /**
   * value_to_color exactly as written: None where the source converts
   * NaN to an unsigned char.
   */
  function ValueToColorAsWritten(value: real, min: real, max: real): (c: Option<Color>)
    ensures value < min ==> c == Some(Blue)
    ensures min <= value && max < value ==> c == Some(Red)
    ensures c.Some? ==> c.value != White
  {
    var v0, v1, v2, v3, v4 :=
      Breakpoint(0, min, max), Breakpoint(1, min, max), Breakpoint(2, min, max),
      Breakpoint(3, min, max), Breakpoint(4, min, max);
    if value < v0 then Some(Blue)
    else if value > v4 then Some(Red)
    else if value <= v2 then
      if value <= v1 then
        match CastBand(value, v0, v1)
        case None => None
        case Some(u) => Some(Color(0, u, 255))
      else
        match CastBand(value, v1, v2)
        case None => None
        case Some(u) => Some(Color(0, 255, 255 - u))
    else
      if value <= v3 then
        match CastBand(value, v2, v3)
        case None => None
        case Some(u) => Some(Color(u, 255, 0))
      else
        match CastBand(value, v3, v4)
        case None => None
        case Some(u) => Some(Color(255, 255 - u, 0))
  }

  /**
   * value_to_color with the one undefined case, a value equal to a
   * degenerate range min == max, given the colour the ramp assigns to
   * its minimum everywhere else: blue.
   */
  function ValueToColor(value: real, min: real, max: real): (c: Color)
    ensures value < min ==> c == Blue
    ensures min <= value && max < value ==> c == Red
    ensures c != White
    ensures min == max == value ==> c == Blue
  {
    match ValueToColorAsWritten(value, min, max)
    case Some(col) => col
    case None => Blue
  }

  /**
   * The ramp as one scale of 1020 steps: 255 steps per band, each band
   * moving one channel between two neighbouring colour stops.
   */
  function RampColor(p: int): (c: Color)
    requires 0 <= p <= 1020
  {
    if p <= 255 then Color(0, p, 255)
    else if p <= 510 then Color(0, 255, 510 - p)
    else if p <= 765 then Color(p - 510, 255, 0)
    else Color(255, 1020 - p, 0)
  }

  /** The step of the ramp a value of [min, max] falls on. */
  function RampPosition(value: real, min: real, max: real): (p: int)
    requires min < max && min <= value <= max
    ensures 0 <= p <= 1020
    ensures value == min ==> p == 0
    ensures p == 1020 <==> value == max
  {
    FractionBounds(1020.0, value - min, max - min);
    (1020.0 * (value - min) / (max - min)).Floor
  }

  /** Every band is a quarter of the range, and its offsets are a shifted copy of the whole scale. */
  lemma BandScale(value: real, min: real, max: real, k: int)
    requires min < max && 0 <= k < 4
    ensures Breakpoint(k + 1, min, max) - Breakpoint(k, min, max) == (max - min) / 4.0
    ensures 255.0 * (value - Breakpoint(k, min, max)) / (Breakpoint(k + 1, min, max) - Breakpoint(k, min, max))
            == 1020.0 * (value - min) / (max - min) - 255.0 * (k as real)
  {
    var d := max - min;
    var lo := Breakpoint(k, min, max);
    assert lo == min + (k as real) * d / 4.0;
    assert Breakpoint(k + 1, min, max) == min + (k as real) * d / 4.0 + d / 4.0;
    var t := (value - min) / d;
    assert value - min == t * d;
    assert value - lo == (t - (k as real) / 4.0) * d;
    calc {
      255.0 * (value - lo) / (d / 4.0);
      255.0 * ((t - (k as real) / 4.0) * d) / (d / 4.0);
      1020.0 * (t - (k as real) / 4.0);
      1020.0 * t - 255.0 * (k as real);
      { assert 1020.0 * (value - min) / d == 1020.0 * t; }
      1020.0 * (value - min) / d - 255.0 * (k as real);
    }
  }

  /** Inside band k the interpolated offset u places the value on step 255 k + u of the scale. */
  lemma BandPosition(value: real, min: real, max: real, k: int)
    requires min < max && 0 <= k < 4 && min <= value <= max
    requires Breakpoint(k, min, max) <= value <= Breakpoint(k + 1, min, max)
    ensures Breakpoint(k, min, max) < Breakpoint(k + 1, min, max)
    ensures RampPosition(value, min, max)
            == 255 * k + BandOffset(value, Breakpoint(k, min, max), Breakpoint(k + 1, min, max))
  {
    BandScale(value, min, max, k);
    var u := BandOffset(value, Breakpoint(k, min, max), Breakpoint(k + 1, min, max));
    var y := 1020.0 * (value - min) / (max - min);
    assert u as real <= y - 255.0 * (k as real) < u as real + 1.0;
  }

  /**
   * Inside [min, max] of positive width the colour is the ramp colour of
   * the value's step: the four bands join into one continuous scale.
   */
  lemma ValueToColorFollowsRamp(value: real, min: real, max: real)
    requires min < max && min <= value <= max
    ensures ValueToColor(value, min, max) == RampColor(RampPosition(value, min, max))
  {
    var v1, v2, v3 := Breakpoint(1, min, max), Breakpoint(2, min, max), Breakpoint(3, min, max);
    assert Breakpoint(0, min, max) == min && Breakpoint(4, min, max) == max;
    if value <= v1 {
      BandPosition(value, min, max, 0);
    } else if value <= v2 {
      BandPosition(value, min, max, 1);
    } else if value <= v3 {
      BandPosition(value, min, max, 2);
    } else {
      BandPosition(value, min, max, 3);
    }
  }

  /** The steps of the scale are told apart by their colours. */
  lemma RampColorInjective(p: int, q: int)
    requires 0 <= p <= 1020 && 0 <= q <= 1020
    ensures RampColor(p) == RampColor(q) <==> p == q
  {
  }

  /** A larger value never moves backwards along the ramp. */
  lemma RampMonotone(a: real, b: real, min: real, max: real)
    requires min < max && min <= a <= b <= max
    ensures RampPosition(a, min, max) <= RampPosition(b, min, max)
  {
    var d := max - min;
    var ya, yb := 1020.0 * (a - min) / d, 1020.0 * (b - min) / d;
    DivMonotone(1020.0 * (a - min), 1020.0 * (b - min), d);
    assert (ya.Floor as real) <= ya <= yb < (yb.Floor as real) + 1.0;
  }

  /** Division by a positive number keeps the order. */
  lemma DivMonotone(x: real, y: real, d: real)
    requires 0.0 < d && x <= y
    ensures x / d <= y / d
  {
    assert x / d * d == x && y / d * d == y;
  }

  /** For a range of positive width, min is blue and max is red. */
  lemma RampEndpoints(min: real, max: real)
    requires min < max
    ensures ValueToColor(min, min, max) == Blue
    ensures ValueToColor(max, min, max) == Red
  {
    ValueToColorFollowsRamp(min, min, max);
    ValueToColorFollowsRamp(max, min, max);
  }

  /** The inner breakpoints v1, v2, v3 are cyan, green and yellow. */
  lemma RampStops(min: real, max: real)
    requires min < max
    ensures ValueToColor(Breakpoint(1, min, max), min, max) == Cyan
    ensures ValueToColor(Breakpoint(2, min, max), min, max) == Green
    ensures ValueToColor(Breakpoint(3, min, max), min, max) == Yellow
  {
    assert Breakpoint(0, min, max) == min && Breakpoint(4, min, max) == max;
    BandPosition(Breakpoint(1, min, max), min, max, 0);
    BandPosition(Breakpoint(2, min, max), min, max, 1);
    BandPosition(Breakpoint(3, min, max), min, max, 2);
    ValueToColorFollowsRamp(Breakpoint(1, min, max), min, max);
    ValueToColorFollowsRamp(Breakpoint(2, min, max), min, max);
    ValueToColorFollowsRamp(Breakpoint(3, min, max), min, max);
  }

  /**
   * The source's conversion is undefined exactly when the range is
   * degenerate and the value sits on it.
   */
  lemma AsWrittenUndefinedExactly(value: real, min: real, max: real)
    ensures ValueToColorAsWritten(value, min, max).None? <==> min == max == value
  {
    assert Breakpoint(0, min, max) == min && Breakpoint(4, min, max) == max;
    if min == max {
      assert Breakpoint(1, min, max) == min;
    }
    if min < max {
      BandScale(value, min, max, 0);
      BandScale(value, min, max, 1);
      BandScale(value, min, max, 2);
      BandScale(value, min, max, 3);
    }
  }

  /** Wherever the source's result is defined, the model agrees with it. */
  lemma ValueToColorExtendsAsWritten(value: real, min: real, max: real)
    requires ValueToColorAsWritten(value, min, max).Some?
    ensures ValueToColor(value, min, max) == ValueToColorAsWritten(value, min, max).value
  {
  }
}
