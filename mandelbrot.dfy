/** Escape-time field of the Mandelbrot set (a.py): the per-point escape count
    and the grey-level pixel grid built from it. Complex numbers are pairs of
    exact reals; `abs(z) > 2.0` is modelled as re^2 + im^2 > 4, which is the
    same test without a square root. */
module Mandelbrot {

  /** Parameters of a.py:9-14. */
  const Width: nat := 800
  const Height: nat := 800
  const MaxIter: nat := 256
  const XMin: real := -2.0
  const XMax: real := 1.0
  const YMin: real := -1.5
  const YMax: real := 1.5

  newtype byte = x: int | 0 <= x < 256

  datatype Complex = Complex(re: real, im: real)

  /** One step of the iteration, z * z + c (a.py:28), written out on the
      real and imaginary parts. */
  function Step(z: Complex, c: Complex): Complex
  {
    Complex(z.re * z.re - z.im * z.im + c.re, z.re * z.im + z.im * z.re + c.im)
  }

  const Zero := Complex(0.0, 0.0)

  /** |z| > 2, stated on the squared modulus. */
  predicate Escaped(z: Complex) { z.re * z.re + z.im * z.im > 4.0 }

  /** z_k of the orbit z_0 = 0, z_{k+1} = z_k^2 + c. */
  function Orbit(c: Complex, k: nat): Complex
  {
    if k == 0 then Zero else Step(Orbit(c, k - 1), c)
  }

  /** The first index in [i, maxIter) whose iterate has escaped, or maxIter. */
  function EscapeSearch(c: Complex, i: nat, maxIter: nat): nat
    decreases maxIter - i
  {
    if i >= maxIter then maxIter
    else if Escaped(Orbit(c, i)) then i
    else EscapeSearch(c, i + 1, maxIter)
  }

  /** Reference definition of the escape count of c under a cap of maxIter. */
  function EscapeTime(c: Complex, maxIter: nat): nat
  {
    EscapeSearch(c, 0, maxIter)
  }

  /** n is the escape count: at most the cap, the iterate at n has escaped
      when n is below the cap, and no earlier iterate has. */
  ghost predicate IsFirstEscape(c: Complex, maxIter: nat, n: nat)
  {
    && n <= maxIter
    && (n < maxIter ==> Escaped(Orbit(c, n)))
    && forall k :: 0 <= k < n ==> !Escaped(Orbit(c, k))
  }

  lemma {:induction false} EscapeSearchFinds(c: Complex, i: nat, maxIter: nat)
    requires i <= maxIter
    requires forall k :: 0 <= k < i ==> !Escaped(Orbit(c, k))
    ensures IsFirstEscape(c, maxIter, EscapeSearch(c, i, maxIter))
    decreases maxIter - i
  {
    if i < maxIter && !Escaped(Orbit(c, i)) {
      EscapeSearchFinds(c, i + 1, maxIter);
    }
  }

  /** The escape count is exactly the first escaping index below the cap:
      EscapeTime satisfies IsFirstEscape, and it is the only count that does. */
  lemma EscapeTimeIsFirstEscape(c: Complex, maxIter: nat, n: nat)
    ensures n == EscapeTime(c, maxIter) <==> IsFirstEscape(c, maxIter, n)
  {
    EscapeSearchFinds(c, 0, maxIter);
  }

  /** The count never exceeds the cap. */
  lemma EscapeTimeBounded(c: Complex, maxIter: nat)
    ensures EscapeTime(c, maxIter) <= maxIter
  {
    EscapeTimeIsFirstEscape(c, maxIter, EscapeTime(c, maxIter));
  }

  lemma {:induction false} OrbitOfZero(k: nat)
    ensures Orbit(Zero, k) == Zero
  {
    if k > 0 {
      OrbitOfZero(k - 1);
    }
  }

  /** c = 0 is a fixed point of the iteration, so it never escapes. */
  lemma OriginNeverEscapes(maxIter: nat)
    ensures EscapeTime(Zero, maxIter) == maxIter
  {
    forall k | 0 <= k < maxIter
      ensures !Escaped(Orbit(Zero, k))
    {
      OrbitOfZero(k);
    }
    EscapeTimeIsFirstEscape(Zero, maxIter, maxIter);
  }

  /** z_1 = 0^2 + c = c. */
  lemma {:induction false} OrbitOne(c: Complex)
    ensures Orbit(c, 1) == c
  {
    assert Orbit(c, 1) == Step(Zero, c);
  }

  /** For |c| > 2, z_0 = 0 has not escaped and z_1 = c has, so the count is
      1 (or 0 when the cap is 0 and the loop body never runs). */
  lemma {:induction false} FarPointEscapesAtOne(c: Complex, maxIter: nat)
    requires Escaped(c)
    ensures EscapeTime(c, maxIter) == if maxIter == 0 then 0 else 1
  {
    if maxIter > 0 {
      OrbitOne(c);
      assert EscapeSearch(c, 1, maxIter) == 1;
      assert !Escaped(Orbit(c, 0));
    }
  }

  /** Once a point escapes under some cap, raising the cap does not change its count. */
  lemma EscapeTimeStableUnderLargerCap(c: Complex, m1: nat, m2: nat)
    requires m1 <= m2 && EscapeTime(c, m1) < m1
    ensures EscapeTime(c, m2) == EscapeTime(c, m1)
  {
    var n := EscapeTime(c, m1);
    EscapeTimeIsFirstEscape(c, m1, n);
    EscapeTimeIsFirstEscape(c, m2, n);
  }

  /** The escape count of the point x + yi (mandelbrot, a.py:16-29): the loop
      runs up to maxIter times and returns early at the first escaped iterate. */
  method EscapeCount(x: real, y: real, maxIter: nat) returns (n: nat)
    ensures n == EscapeTime(Complex(x, y), maxIter)
    ensures IsFirstEscape(Complex(x, y), maxIter, n)
  {
    var c := Complex(x, y);
    var z := Zero;
    EscapeTimeIsFirstEscape(c, maxIter, EscapeTime(c, maxIter));
    for i := 0 to maxIter
      invariant z == Orbit(c, i)
      invariant forall k :: 0 <= k < i ==> !Escaped(Orbit(c, k))
    {
      if Escaped(z) {
        EscapeTimeIsFirstEscape(c, maxIter, i);
        return i;
      }
      z := Step(z, c);
    }
    EscapeTimeIsFirstEscape(c, maxIter, maxIter);
    n := maxIter;
  }

  /** Grey level of an escape count: 255 - floor(n * 255 / maxIter). */
  function Intensity(n: nat, maxIter: nat): (v: int)
    requires maxIter > 0
    ensures n <= maxIter ==> 0 <= v <= 255
    ensures n == 0 ==> v == 255
    ensures n == maxIter ==> v == 0
  {
    var q := (n * 255) / maxIter;
    assert n <= maxIter ==> q <= 255 by {
      if n <= maxIter {
        DivBounded(n * 255, maxIter * 255, maxIter);
        MulDiv(255, maxIter);
      }
    }
    assert n == maxIter ==> q == 255 by {
      if n == maxIter {
        MulDiv(255, maxIter);
      }
    }
    255 - q
  }

  lemma MulDiv(k: nat, m: nat)
    requires m > 0
    ensures (m * k) / m == k && (k * m) / m == k
  {
    var q, r := (k * m) / m, (k * m) % m;
    assert q * m + r == k * m;
    assert (k - q) * m == r;
    MulCancel(k - q, 1, m);
    MulCancel(-1, k - q, m);
  }

  lemma MulCancel(x: int, y: int, m: int)
    requires m > 0 && x * m < y * m
    ensures x < y
  {
  }

  /** Integer division by a positive number is monotone. */
  lemma DivBounded(a: nat, b: nat, m: nat)
    requires m > 0 && a <= b
    ensures a / m <= b / m
  {
    var qa, qb := a / m, b / m;
    assert qa * m + a % m == a;
    assert qb * m + b % m == b;
    assert qa * m < (qb + 1) * m;
    MulCancel(qa, qb + 1, m);
  }

  /** More iterations never give a lighter grey. */
  lemma IntensityNonIncreasing(n1: nat, n2: nat, maxIter: nat)
    requires maxIter > 0 && n1 <= n2
    ensures Intensity(n1, maxIter) >= Intensity(n2, maxIter)
  {
    DivBounded(n1 * 255, n2 * 255, maxIter);
  }

  /** The j-th of n evenly spaced samples of [lo, hi], both ends included
      (numpy.linspace; a single sample is lo). */
  function Linspace(lo: real, hi: real, n: nat, j: nat): (r: real)
    requires j < n
    ensures j == 0 ==> r == lo
    ensures n >= 2 && j == n - 1 ==> r == hi
    ensures lo <= hi ==> lo <= r <= hi
  {
    if n == 1 then lo
    else
      var t := j as real / (n - 1) as real;
      UnitFraction(j, n - 1);
      ScaleWithin(t, lo, hi);
      lo + t * (hi - lo)
  }

  lemma ScaleWithin(t: real, lo: real, hi: real)
    requires 0.0 <= t <= 1.0
    ensures lo <= hi ==> lo <= lo + t * (hi - lo) <= hi
  {
    if lo <= hi {
      MulNonnegative(1.0 - t, hi - lo);
      MulNonnegative(t, hi - lo);
    }
  }

  lemma UnitFraction(a: nat, b: nat)
    requires 0 < b && a <= b
    ensures 0.0 <= a as real / b as real <= 1.0
    ensures a == b ==> a as real / b as real == 1.0
  {
    var q := a as real / b as real;
    assert q * b as real == a as real;
    if q > 1.0 {
      MulNonnegative(q - 1.0, b as real);
    }
    if q < 0.0 {
      MulNonnegative(-q, b as real);
    }
  }

  lemma MulNonnegative(a: real, b: real)
    requires a >= 0.0 && b >= 0.0
    ensures a * b >= 0.0
  {
  }

  /** The point of the complex plane sampled by pixel (row i, column j). */
  function PixelPoint(i: nat, j: nat, width: nat, height: nat,
                      xmin: real, xmax: real, ymin: real, ymax: real): Complex
    requires i < height && j < width
  {
    Complex(Linspace(xmin, xmax, width, j), Linspace(ymin, ymax, height, i))
  }

  /** The grey level of pixel (i, j). */
  function PixelValue(i: nat, j: nat, width: nat, height: nat,
                      xmin: real, xmax: real, ymin: real, ymax: real, maxIter: nat): byte
    requires i < height && j < width && maxIter > 0
  {
    var n := EscapeTime(PixelPoint(i, j, width, height, xmin, xmax, ymin, ymax), maxIter);
    EscapeTimeBounded(PixelPoint(i, j, width, height, xmin, xmax, ymin, ymax), maxIter);
    Intensity(n, maxIter) as byte
  }

  /** generate_mandelbrot (a.py:31-50): a fresh height x width x 3 grid in which
      every cell holds the grey level of its sample point on all three channels. */
  method GenerateField(width: nat, height: nat, xmin: real, xmax: real,
                       ymin: real, ymax: real, maxIter: nat)
    returns (pixels: array3<byte>)
    requires maxIter > 0
    ensures fresh(pixels)
    ensures pixels.Length0 == height && pixels.Length1 == width && pixels.Length2 == 3
    ensures forall i, j, k :: 0 <= i < height && 0 <= j < width && 0 <= k < 3 ==>
              pixels[i, j, k] == PixelValue(i, j, width, height, xmin, xmax, ymin, ymax, maxIter)
  {
    pixels := new byte[height, width, 3];
    for i := 0 to height
      invariant forall i', j, k :: 0 <= i' < i && 0 <= j < width && 0 <= k < 3 ==>
                  pixels[i', j, k] == PixelValue(i', j, width, height, xmin, xmax, ymin, ymax, maxIter)
    {
      var y := Linspace(ymin, ymax, height, i);
      for j := 0 to width
        invariant forall i', j', k :: 0 <= i' < i && 0 <= j' < width && 0 <= k < 3 ==>
                    pixels[i', j', k] == PixelValue(i', j', width, height, xmin, xmax, ymin, ymax, maxIter)
        invariant forall j', k :: 0 <= j' < j && 0 <= k < 3 ==>
                    pixels[i, j', k] == PixelValue(i, j', width, height, xmin, xmax, ymin, ymax, maxIter)
      {
        var x := Linspace(xmin, xmax, width, j);
        var color := EscapeCount(x, y, maxIter);
        var colorValue := Intensity(color, maxIter) as byte;
        pixels[i, j, 0], pixels[i, j, 1], pixels[i, j, 2] := colorValue, colorValue, colorValue;
      }
    }
  }

  /** The configured view samples exactly the corners of [-2, 1] x [-1.5, 1.5]. */
  lemma ConfiguredViewCorners()
    ensures PixelPoint(0, 0, Width, Height, XMin, XMax, YMin, YMax) == Complex(-2.0, -1.5)
    ensures PixelPoint(Height - 1, Width - 1, Width, Height, XMin, XMax, YMin, YMax) == Complex(1.0, 1.5)
  {
  }
}
