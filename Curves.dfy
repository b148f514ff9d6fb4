/**
  The tone curve applied to every grey value of a screenshot: values below 4.5% of
  full scale become black, values from 6% up become white, and the band between is
  stretched linearly.
*/
module Curves {
  import opened Memory

  /**
    The curve as a table over the 256 byte values. The four values inside the band
    are what the single-precision computation `((v/255 - 0.045) / 0.015) * 255`,
    truncated to a byte, produces: 34, 101, 168 and 235.
  */
  function ApplyCurves(v: byte): byte {
    if v <= 11 then 0
    else if v == 12 then 34
    else if v == 13 then 101
    else if v == 14 then 168
    else if v == 15 then 235
    else 255
  }

  /** The curve's first branch: `v / 255 < 0.045` exactly when `v <= 11`. */
  lemma BlackThreshold(v: byte)
    ensures (v as real) / 255.0 < 0.045 <==> v <= 11
  {
  }

  /** The curve's second branch: `v / 255 < 0.06` exactly when `v <= 15`. */
  lemma WhiteThreshold(v: byte)
    ensures (v as real) / 255.0 < 0.06 <==> v <= 15
  {
  }

  /** The band's formula evaluated without rounding. */
  function BandValue(v: byte): real {
    (((v as real) / 255.0 - 0.045) / 0.015) * 255.0
  }

  /** Everything below the band is black, everything above it is white. */
  lemma CurveSaturates(v: byte)
    ensures (v as real) / 255.0 < 0.045 ==> ApplyCurves(v) == 0
    ensures (v as real) / 255.0 >= 0.06 ==> ApplyCurves(v) == 255
  {
    BlackThreshold(v);
    WhiteThreshold(v);
  }

  /**
    Inside the band the table is the truncated exact value, except at 12, where the
    exact value is 35 and single precision gives just under it, so 34.
  */
  lemma {:induction false} CurveBand(v: byte)
    requires 0.045 <= (v as real) / 255.0 < 0.06
    ensures v == 12 ==> BandValue(v) == 35.0 && ApplyCurves(v) == 34
    ensures v != 12 ==> ApplyCurves(v) == BandValue(v).Floor
  {
    BlackThreshold(v);
    WhiteThreshold(v);
    assert BandValue(v) == (200.0 * (v as real) - 2295.0) / 3.0;
  }

  /** The curve never darkens a lighter value. */
  lemma CurveMonotone(a: byte, b: byte)
    requires a <= b
    ensures ApplyCurves(a) <= ApplyCurves(b)
  {
  }

  /** The curve keeps the extremes. */
  lemma CurveEnds()
    ensures ApplyCurves(0) == 0 && ApplyCurves(255) == 255
  {
  }
}
