/** The energy test behind `_has_audio`: a sample sequence "has audio" when
    its root-mean-square level, normalised to the unit range, is strictly
    above the silence threshold.  Samples are integers standing for
    `x / unit`: `unit` is 32768 for the int16 recorder and the fixed-point
    quantum of the float samples for the Windows recorder.  The square root
    and the divisions are removed by cross-multiplying, so the test is exact. */
module Energy {

  /** A rational setting `num / den`, standing for a Python float such as the
      threshold 0.01 or a duration in seconds. */
  datatype Ratio = Ratio(num: int, den: nat) {
    predicate Valid() { den > 0 }
  }

  /** The sum of the squared samples. */
  function SumSquares(s: seq<int>): nat
  {
    if s == [] then 0 else Square(s[0]) + SumSquares(s[1..])
  }

  function Square(x: int): nat
  {
    SquareNonNegative(x);
    x * x
  }

  lemma SquareNonNegative(x: int)
    ensures x * x >= 0
  {}

  /** `sqrt(mean(s**2)) / unit > t`.  An empty sequence has no mean (numpy
      gives nan, and nan compares false), so it is never loud.  A negative
      threshold is passed by every non-empty sequence. */
  predicate Loud(s: seq<int>, unit: nat, t: Ratio)
    requires unit > 0 && t.Valid()
  {
    |s| > 0 &&
    (t.num < 0 || SumSquares(s) * (t.den * t.den) > |s| * ((t.num * unit) * (t.num * unit)))
  }

  /** The mean square of the normalised samples, as a real number. */
  ghost function MeanSquare(s: seq<int>, unit: nat): real
    requires |s| > 0 && unit > 0
  {
    (SumSquares(s) as real) / ((|s| * unit * unit) as real)
  }

  lemma CrossMultiply(a: nat, n: nat, d: nat, k: nat)
    requires n > 0 && d > 0
    ensures (a as real) / (n as real) > (k as real) / (d as real) <==> a * d > n * k
  {
    var x := (a as real) / (n as real);
    var y := (k as real) / (d as real);
    assert x * (n as real) == a as real;
    assert y * (d as real) == k as real;
    assert (n as real) * (d as real) > 0.0;
    calc {
      x > y;
      x * ((n as real) * (d as real)) > y * ((n as real) * (d as real));
      (a as real) * (d as real) > (k as real) * (n as real);
      { assert (a as real) * (d as real) == (a * d) as real;
        assert (k as real) * (n as real) == (n * k) as real; }
      a * d > n * k;
    }
  }

  /** `Loud` is the square-root-free form of the test the source writes with
      floats: "RMS / unit > t" holds exactly when t is negative or the mean
      square of the normalised samples exceeds t squared. */
  lemma LoudIsMeanSquareTest(s: seq<int>, unit: nat, t: Ratio)
    requires unit > 0 && t.Valid() && |s| > 0
    ensures Loud(s, unit, t) <==>
      (t.num < 0 || MeanSquare(s, unit) > ((t.num as real) / (t.den as real)) * ((t.num as real) / (t.den as real)))
  {
    if t.num >= 0 {
      var a := SumSquares(s);
      var n := |s| * unit * unit;
      var k := t.num * t.num;
      var d := t.den * t.den;
      assert n > 0 && d > 0;
      var tr := (t.num as real) / (t.den as real);
      assert tr * tr == (k as real) / (d as real) by {
        assert tr * (t.den as real) == t.num as real;
        assert (tr * tr) * (d as real) == (k as real);
      }
      CrossMultiply(a, n, d, k);
      assert |s| * ((t.num * unit) * (t.num * unit)) == n * k;
    }
  }

  /** A frame of `n` samples that all have amplitude `a`. */
  function Constant(a: int, n: nat): (s: seq<int>)
    ensures |s| == n && forall i :: 0 <= i < n ==> s[i] == a
  {
    seq(n, _ => a)
  }

  lemma {:induction false} SumSquaresConstant(a: int, n: nat)
    ensures SumSquares(Constant(a, n)) == n * (a * a)
  {
    if n > 0 {
      assert Constant(a, n)[1..] == Constant(a, n - 1);
      SumSquaresConstant(a, n - 1);
    }
  }

  /** The comparison is strict: a steady tone whose normalised level equals
      the threshold exactly (`|a| / unit == t`) counts as silence, and any level
      above it counts as audio. */
  lemma ConstantFrameLoudness(a: int, n: nat, unit: nat, t: Ratio)
    requires unit > 0 && t.Valid() && n > 0 && t.num >= 0
    ensures Loud(Constant(a, n), unit, t) <==> (a * t.den) * (a * t.den) > (t.num * unit) * (t.num * unit)
    ensures (a * t.den) * (a * t.den) == (t.num * unit) * (t.num * unit) ==> !Loud(Constant(a, n), unit, t)
  {
    SumSquaresConstant(a, n);
    var d := t.den * t.den;
    var q := (t.num * unit) * (t.num * unit);
    var sq := a * a;
    MulAssoc(n, sq, d);
    SquareOfProduct(a, t.den);
    MulCancelStrict(n, sq * d, q);
  }

  lemma {:induction false} SumSquaresAppend(a: seq<int>, b: seq<int>)
    ensures SumSquares(a + b) == SumSquares(a) + SumSquares(b)
  {
    if a != [] {
      assert a + b != [] && (a + b)[0] == a[0];
      assert (a + b)[1..] == a[1..] + b;
      SumSquaresAppend(a[1..], b);
    } else {
      assert a + b == b;
    }
  }

  /** Whole-buffer gating never passes a buffer made of two quiet parts: if
      the joined buffer is loud, one of the parts is. */
  lemma LoudJoinHasLoudPart(a: seq<int>, b: seq<int>, unit: nat, t: Ratio)
    requires unit > 0 && t.Valid()
    ensures Loud(a + b, unit, t) ==> Loud(a, unit, t) || Loud(b, unit, t)
  {
    if !Loud(a, unit, t) && !Loud(b, unit, t) {
      if a == [] {
        assert a + b == b;
      } else if b == [] {
        assert a + b == a;
      } else if t.num >= 0 {
        var d := t.den * t.den;
        var q := (t.num * unit) * (t.num * unit);
        SumSquaresAppend(a, b);
        Distrib(SumSquares(a), SumSquares(b), d);
        Distrib(|a|, |b|, q);
        assert |a + b| == |a| + |b|;
      }
    }
  }

  /** `s` with every sample multiplied by `k`. */
  function Scaled(s: seq<int>, k: int): (r: seq<int>)
    ensures |r| == |s| && forall i :: 0 <= i < |s| ==> r[i] == k * s[i]
  {
    if s == [] then [] else [k * s[0]] + Scaled(s[1..], k)
  }

  lemma {:induction false} SumSquaresScaled(s: seq<int>, k: int)
    ensures SumSquares(Scaled(s, k)) == (k * k) * SumSquares(s)
  {
    if s != [] {
      var ks := Scaled(s, k);
      assert ks[1..] == Scaled(s[1..], k);
      SumSquaresScaled(s[1..], k);
      SquareOfProduct(k, s[0]);
      Distrib(s[0] * s[0], SumSquares(s[1..]), k * k);
    }
  }

  /** Scaling every sample and the unit by the same factor leaves the verdict
      unchanged: the test sees only the normalised samples `s[i] / unit`, so
      the int16 recorder (unit 32768) and the float recorder agree on any
      signal both can represent. */
  lemma LoudScaleInvariant(s: seq<int>, k: nat, unit: nat, t: Ratio)
    requires unit > 0 && k > 0 && t.Valid()
    ensures Loud(Scaled(s, k), k * unit, t) <==> Loud(s, unit, t)
  {
    if t.num >= 0 && s != [] {
      SumSquaresScaled(s, k);
      var d := t.den * t.den;
      var q := (t.num * unit) * (t.num * unit);
      var kk := k * k;
      SquareOfProduct(k, t.num * unit);
      assert (t.num * (k * unit)) == k * (t.num * unit);
      MulAssoc(kk, SumSquares(s), d);
      MulAssoc(|s|, kk, q);
      assert |s| * (kk * q) == kk * (|s| * q);
      MulCancelStrict(kk, SumSquares(s) * d, |s| * q);
    }
  }

  lemma MulCancelStrict(n: int, x: int, y: int)
    requires n > 0
    ensures n * x > n * y <==> x > y
  {
    if x > y { assert n * x - n * y == n * (x - y); }
    else { assert n * y - n * x == n * (y - x); }
  }

  lemma MulAssoc(x: int, y: int, z: int)
    ensures (x * y) * z == x * (y * z)
  {}

  lemma SquareOfProduct(a: int, d: int)
    ensures (a * d) * (a * d) == (a * a) * (d * d)
  {}

  lemma Distrib(x: int, y: int, z: int)
    ensures (x + y) * z == x * z + y * z
  {}
}
