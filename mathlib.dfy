/** The part of Python's `math` module the laminate calculator uses, over exact reals.
    `math.sin` and `math.cos` are not defined here: a laminate is handed a `Trig` value
    holding them, and `Trig.Sound` names the only facts about them the proofs rely on. */
module MathLib {

  /** `math.pi`: 3.141592653589793 is the shortest decimal that prints as that double, not the
      double's exact binary value. */
  const Pi: real := 3.141592653589793

  /** `math.radians`: multiplies by pi / 180. */
  function Radians(degrees: real): real
  {
    degrees * (Pi / 180.0)
  }

  /** `math.degrees`: multiplies by 180 / pi. */
  function Degrees(radians: real): real
  {
    radians * (180.0 / Pi)
  }

  /** A right angle in radians, `math.radians(90)`. */
  const RightAngle: real := Radians(90.0)

  /** `math.degrees` undoes `math.radians`, and an angle in (0, 90) degrees lies in (0, RightAngle) radians. */
  lemma DegreesInverse(d: real)
    ensures Degrees(Radians(d)) == d
    ensures 0.0 < d < 90.0 <==> 0.0 < Radians(d) < RightAngle
  {
  }

  /** An angle lies strictly between 0 and 90 degrees exactly when it lies strictly inside the first quadrant. */
  lemma AcuteIff(a: real)
    ensures 0.0 < Degrees(a) < 90.0 <==> 0.0 < a < RightAngle
  {
  }

  /** `math.sin` and `math.cos`, supplied by the caller. */
  datatype Trig = Trig(sin: real -> real, cos: real -> real)
  {
    /** What the proofs rely on about sine and cosine: both are positive strictly inside the first quadrant. */
    ghost predicate Sound()
    {
      forall x :: 0.0 < x < RightAngle ==> sin(x) > 0.0 && cos(x) > 0.0
    }
  }

  /** `2 ** k`. */
  function Pow2(k: nat): (r: nat)
    ensures r >= 1
  {
    if k == 0 then 1 else 2 * Pow2(k - 1)
  }

  /** Python's `sum` over a list of floats. Real addition is associative, so folding from the
      front gives the same value as Python's left-to-right accumulation. */
  function Sum(xs: seq<real>): real
  {
    if xs == [] then 0.0 else xs[0] + Sum(xs[1..])
  }

  /** `sum` of a list with one more value in front. */
  lemma SumPrepend(x: real, xs: seq<real>)
    ensures Sum([x] + xs) == x + Sum(xs)
  {
    assert ([x] + xs)[1..] == xs;
  }

  /** Real multiplication is associative. */
  lemma MulAssoc(a: real, b: real, c: real)
    ensures (a * b) * c == a * (b * c)
  {
  }

  /** `reduce(lambda x, y: x*y, xs)` without an initial value: defined on non-empty lists only,
      folding from the left. */
  function Product(xs: seq<real>): real
    requires |xs| > 0
  {
    if |xs| == 1 then xs[0] else Product(xs[..|xs| - 1]) * xs[|xs| - 1]
  }

  /** One more factor on the right multiplies the product by it: the step `reduce` takes. */
  lemma ProductAppend(xs: seq<real>, y: real)
    requires |xs| > 0
    ensures Product(xs + [y]) == Product(xs) * y
  {
    var ys := xs + [y];
    assert ys[..|ys| - 1] == xs;
  }
}
