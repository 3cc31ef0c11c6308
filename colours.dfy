/**
 * Colour values (colours.c).  A colour carries r, g, b and an alpha that
 * the arithmetic never consults.  The C operations that update a `colour *`
 * in place are modelled as functions from the old value of `*c` to its new
 * value; the out-of-place variants `xxxed(r, ...)` also take the old `*r`,
 * because they leave its alpha as it was.
 */
module Colours {
  import opened Scalars

  datatype Colour = Colour(r: real, g: real, b: real, a: real)

  /** Channel k of c: 0 = red, 1 = green, 2 = blue. */
  function Channel(c: Colour, k: int): real
    requires 0 <= k < 3
  {
    if k == 0 then c.r else if k == 1 then c.g else c.b
  }

  /** Every colour channel lies in [0, 1]. */
  predicate InUnit(c: Colour)
  {
    0.0 <= c.r <= 1.0 && 0.0 <= c.g <= 1.0 && 0.0 <= c.b <= 1.0
  }

  // ---------------------------------------------------------------- constructors

  function MakeColourA(r: real, g: real, b: real, a: real): (c: Colour)
    ensures c.a == a
    ensures forall k :: 0 <= k < 3 ==> Channel(c, k) == [r, g, b][k]
  {
    Colour(r, g, b, a)
  }

  /** An opaque colour: alpha defaults to 1. */
  function MakeColour(r: real, g: real, b: real): (c: Colour)
    ensures c == MakeColourA(r, g, b, 1.0)
  {
    Colour(r, g, b, 1.0)
  }

  function Grey(v: real): (c: Colour)
    ensures c == MakeColour(v, v, v)
    ensures forall k :: 0 <= k < 3 ==> Channel(c, k) == v
  {
    Colour(v, v, v, 1.0)
  }

  /** COLOUR_BLACK and COLOUR_WHITE of colours.h. */
  const Black: Colour := MakeColour(0.0, 0.0, 0.0)
  const White: Colour := MakeColour(1.0, 1.0, 1.0)

  /** Black and white are the opaque greys 0 and 1: in range, and not the same colour. */
  lemma BlackAndWhite()
    ensures Black == Grey(0.0) && White == Grey(1.0)
    ensures InUnit(Black) && InUnit(White) && Black.a == 1.0 && White.a == 1.0
    ensures forall k :: 0 <= k < 3 ==> Channel(Black, k) == 0.0 && Channel(White, k) == 1.0
    ensures !SameColour(Black, White)
  {
  }

  // ---------------------------------------------------------------- clamping

  /** scalarMax(scalarMin(v, 1), 0). */
  function Clamp01(v: real): (r: real)
    ensures 0.0 <= r <= 1.0
    ensures 0.0 <= v <= 1.0 ==> r == v
    ensures v > 1.0 ==> r == 1.0
    ensures v < 0.0 ==> r == 0.0
  {
    Max(Min(v, 1.0), 0.0)
  }

  /** clip(c): clamps each channel into [0, 1]; alpha untouched. */
  function Clip(c: Colour): (r: Colour)
    ensures InUnit(r) && r.a == c.a
    ensures InUnit(c) ==> r == c
    ensures forall k :: 0 <= k < 3 ==> Channel(r, k) == Clamp01(Channel(c, k))
  {
    Colour(Clamp01(c.r), Clamp01(c.g), Clamp01(c.b), c.a)
  }

  /** clipped(r, c): the clamped channels of c written into *r, whose alpha stays. */
  function Clipped(dst: Colour, c: Colour): (r: Colour)
    ensures r == Clip(c).(a := dst.a)
    ensures InUnit(c) ==> SameColour(r, c)
  {
    Colour(Clamp01(c.r), Clamp01(c.g), Clamp01(c.b), dst.a)
  }

  /** makePositive(c): despite its name, only caps channels at 1. */
  function MakePositive(c: Colour): (r: Colour)
    ensures r.a == c.a
    ensures forall k :: 0 <= k < 3 ==> Channel(r, k) <= 1.0
    ensures forall k :: 0 <= k < 3 && Channel(c, k) <= 1.0 ==> Channel(r, k) == Channel(c, k)
    ensures forall k :: 0 <= k < 3 && Channel(c, k) > 1.0 ==> Channel(r, k) == 1.0
  {
    Colour(Min(c.r, 1.0), Min(c.g, 1.0), Min(c.b, 1.0), c.a)
  }

  /** applyGamma(r, gamma): each channel raised to gamma by the given power function. */
  function ApplyGamma(c: Colour, gamma: real, pow: (real, real) -> real): (r: Colour)
    ensures r.a == c.a
    ensures forall k :: 0 <= k < 3 ==> Channel(r, k) == pow(Channel(c, k), gamma)
  {
    Colour(pow(c.r, gamma), pow(c.g, gamma), pow(c.b, gamma), c.a)
  }

  // ---------------------------------------------------------------- channel arithmetic

  /** brighten(c, f): adds f to each channel. */
  function Brighten(c: Colour, f: real): (r: Colour)
    ensures r.a == c.a
    ensures forall k :: 0 <= k < 3 ==> Channel(r, k) == Channel(c, k) + f
  {
    Colour(c.r + f, c.g + f, c.b + f, c.a)
  }

  function Brightened(dst: Colour, c: Colour, f: real): (r: Colour)
    ensures r == Brighten(c, f).(a := dst.a)
  {
    Colour(c.r + f, c.g + f, c.b + f, dst.a)
  }

  /** darken(c, f): subtracts f from each channel; brightening by f undoes it. */
  function Darken(c: Colour, f: real): (r: Colour)
    ensures r.a == c.a
    ensures Brighten(r, f) == c
  {
    Colour(c.r - f, c.g - f, c.b - f, c.a)
  }

  function Darkened(dst: Colour, c: Colour, f: real): (r: Colour)
    ensures r == Darken(c, f).(a := dst.a)
  {
    Colour(c.r - f, c.g - f, c.b - f, dst.a)
  }

  /** scale(c, f): multiplies each channel by f. */
  function Scale(c: Colour, f: real): (r: Colour)
    ensures r.a == c.a
    ensures forall k :: 0 <= k < 3 ==> Channel(r, k) == Channel(c, k) * f
  {
    Colour(c.r * f, c.g * f, c.b * f, c.a)
  }

  function Scaled(dst: Colour, c: Colour, f: real): (r: Colour)
    ensures r == Scale(c, f).(a := dst.a)
  {
    Colour(c.r * f, c.g * f, c.b * f, dst.a)
  }

  /** scaledDown(r, c, f): divides by f, so scaling the result by f gives back c. */
  function ScaledDown(dst: Colour, c: Colour, f: real): (r: Colour)
    requires f != 0.0
    ensures r.a == dst.a
    ensures SameColour(Scale(r, f), c)
  {
    Colour(c.r / f, c.g / f, c.b / f, dst.a)
  }

  /** mult(c, a): channel-wise product; alpha of c kept. */
  function Mult(c: Colour, m: Colour): (r: Colour)
    ensures r.a == c.a
    ensures forall k :: 0 <= k < 3 ==> Channel(r, k) == Channel(c, k) * Channel(m, k)
  {
    Colour(c.r * m.r, c.g * m.g, c.b * m.b, c.a)
  }

  function Multiplied(dst: Colour, x: Colour, y: Colour): (r: Colour)
    ensures r == Mult(x, y).(a := dst.a)
  {
    Colour(x.r * y.r, x.g * y.g, x.b * y.b, dst.a)
  }

  /** All channels non-zero, so that dividing by the colour is defined. */
  predicate NonZero(c: Colour)
  {
    c.r != 0.0 && c.g != 0.0 && c.b != 0.0
  }

  /** divide(c, a): channel-wise quotient; multiplying back by a recovers c. */
  function Divide(c: Colour, d: Colour): (r: Colour)
    requires NonZero(d)
    ensures r.a == c.a
    ensures Mult(r, d) == c
  {
    Colour(c.r / d.r, c.g / d.g, c.b / d.b, c.a)
  }

  function Divided(dst: Colour, x: Colour, y: Colour): (r: Colour)
    requires NonZero(y)
    ensures r == Divide(x, y).(a := dst.a)
  {
    Colour(x.r / y.r, x.g / y.g, x.b / y.b, dst.a)
  }

  /** additiveMix(c, a): channel-wise sum; alpha of c kept. */
  function AdditiveMix(c: Colour, m: Colour): (r: Colour)
    ensures r.a == c.a
    ensures forall k :: 0 <= k < 3 ==> Channel(r, k) == Channel(c, k) + Channel(m, k)
  {
    Colour(c.r + m.r, c.g + m.g, c.b + m.b, c.a)
  }

  function AdditiveMixed(dst: Colour, x: Colour, y: Colour): (r: Colour)
    ensures r == AdditiveMix(x, y).(a := dst.a)
  {
    Colour(x.r + y.r, x.g + y.g, x.b + y.b, dst.a)
  }

  // ---------------------------------------------------------------- comparison

  /** sameColour: exact equality of r, g and b; alpha is ignored. */
  predicate SameColour(x: Colour, y: Colour)
  {
    x.r == y.r && x.g == y.g && x.b == y.b
  }

  /** SameColour is equality once alpha is forgotten. */
  lemma SameColourIgnoresAlpha(x: Colour, y: Colour)
    ensures SameColour(x, y) <==> x.(a := 0.0) == y.(a := 0.0)
  {
  }

  /** SameColour is an equivalence: reflexive, symmetric and transitive. */
  lemma SameColourEquivalence(x: Colour, y: Colour, z: Colour)
    ensures SameColour(x, x)
    ensures SameColour(x, y) ==> SameColour(y, x)
    ensures SameColour(x, y) && SameColour(y, z) ==> SameColour(x, z)
  {
  }

  /** colourDist: weighted squared channel differences (0.3, 0.4, 0.2). */
  function ColourDist(x: Colour, y: Colour): (d: real)
    ensures 0.0 <= d
    ensures SameColour(x, y) ==> d == 0.0
  {
    SquareNonNegative(x.r - y.r);
    SquareNonNegative(x.g - y.g);
    SquareNonNegative(x.b - y.b);
    0.3 * ((x.r - y.r) * (x.r - y.r)) + 0.4 * ((x.g - y.g) * (x.g - y.g)) + 0.2 * ((x.b - y.b) * (x.b - y.b))
  }

  lemma SquareNonNegative(v: real)
    ensures 0.0 <= v * v
  {
    if v < 0.0 {
      assert (-v) * (-v) == v * v;
    }
  }

  lemma ColourDistSymmetric(x: Colour, y: Colour)
    ensures ColourDist(x, y) == ColourDist(y, x)
  {
    assert (x.r - y.r) * (x.r - y.r) == (y.r - x.r) * (y.r - x.r);
    assert (x.g - y.g) * (x.g - y.g) == (y.g - x.g) * (y.g - x.g);
    assert (x.b - y.b) * (x.b - y.b) == (y.b - x.b) * (y.b - x.b);
  }

  // ---------------------------------------------------------------- components

  /** getRGB: the channels scaled by 255. */
  function GetRGB(c: Colour): (v: Vec3)
    ensures forall k :: 0 <= k < 3 ==> v.At(k) == Channel(c, k) * 255.0
    ensures InUnit(c) ==> forall k :: 0 <= k < 3 ==> 0.0 <= v.At(k) <= 255.0
  {
    Vec3(c.r * 255.0, c.g * 255.0, c.b * 255.0)
  }

  /** The `wavelengths` table of colours.c. */
  const Wavelengths: seq<real> := [5.70, 5.40, 4.40]

  /**
   * getComponentWaveLength: the table entry of a component below 3, else 0.
   * A negative component would index before the table, so it is excluded.
   */
  function GetComponentWaveLength(c: Colour, component: int): (w: real)
    requires 0 <= component
    ensures component < 3 ==> w == Wavelengths[component] && w > 0.0
    ensures component >= 3 ==> w == 0.0
  {
    if component < 3 then Wavelengths[component] else 0.0
  }

  /** getComponentColour: the opaque colour holding only the chosen channel of c. */
  function GetComponentColour(c: Colour, component: int): (r: Colour)
    ensures r.a == 1.0
    ensures 0 <= component < 3 ==>
      forall k :: 0 <= k < 3 ==> Channel(r, k) == if k == component then Channel(c, k) else 0.0
    ensures !(0 <= component < 3) ==> r == Black
  {
    if component == 0 then MakeColour(c.r, 0.0, 0.0)
    else if component == 1 then MakeColour(0.0, c.g, 0.0)
    else if component == 2 then MakeColour(0.0, 0.0, c.b)
    else Black
  }

  /** Mixing the three component colours of c gives back c's channels. */
  lemma ComponentsRecompose(c: Colour)
    ensures SameColour(AdditiveMix(AdditiveMix(GetComponentColour(c, 0), GetComponentColour(c, 1)),
                                   GetComponentColour(c, 2)), c)
  {
  }

  /** multComponent(c, component, s): scales exactly the chosen channel; a no-op outside 0..2. */
  function MultComponent(c: Colour, component: int, s: real): (r: Colour)
    ensures r.a == c.a
    ensures 0 <= component < 3 ==>
      forall k :: 0 <= k < 3 ==> Channel(r, k) == if k == component then Channel(c, k) * s else Channel(c, k)
    ensures !(0 <= component < 3) ==> r == c
  {
    if component == 0 then c.(r := c.r * s)
    else if component == 1 then c.(g := c.g * s)
    else if component == 2 then c.(b := c.b * s)
    else c
  }

  // ---------------------------------------------------------------- decay

  /**
   * decay(r, f, x): unless the filter f is white, each channel of *r is
   * multiplied by f's channel times exp(-x * (1 - f's channel)); `exp`
   * stands for scalarPow(scalarE, .).  A white filter leaves *r unchanged.
   */
  function Decay(c: Colour, f: Colour, x: real, exp: real -> real): (r: Colour)
    ensures r.a == c.a
    ensures SameColour(f, White) ==> r == c
    ensures !SameColour(f, White) ==>
      forall k :: 0 <= k < 3 ==> Channel(r, k) == Channel(c, k) * Absorbed(Channel(f, k), x, exp)
  {
    if SameColour(f, White) then c
    else Colour(c.r * Absorbed(f.r, x, exp), c.g * Absorbed(f.g, x, exp), c.b * Absorbed(f.b, x, exp), c.a)
  }

  /** The factor one filter channel v applies over distance x. */
  function Absorbed(v: real, x: real, exp: real -> real): real
  {
    v * exp(-x * (1.0 - v))
  }

  // ---------------------------------------------------------------- properties

  /** Clipping twice is clipping once. */
  lemma ClipIdempotent(c: Colour)
    ensures Clip(Clip(c)) == Clip(c)
  {
  }

  /** Brightening by f and then darkening by f gives the colour back. */
  lemma DarkenUndoesBrighten(c: Colour, f: real)
    ensures Darken(Brighten(c, f), f) == c
  {
  }

  /** Mixing with a grey of value f brightens by f. */
  lemma MixWithGreyBrightens(c: Colour, f: real)
    ensures AdditiveMix(c, Grey(f)) == Brighten(c, f)
  {
  }

  /** multComponent is a multiply by the colour that is s in that channel and 1 elsewhere. */
  lemma MultComponentIsMult(c: Colour, component: int, s: real)
    requires 0 <= component < 3
    ensures MultComponent(c, component, s) ==
            Mult(c, MakeColour(if component == 0 then s else 1.0,
                               if component == 1 then s else 1.0,
                               if component == 2 then s else 1.0))
  {
  }
}
