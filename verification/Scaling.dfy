/** Aspect-preserving even scaling, and the validator's aspect-ratio gate that bounds it. */
module Scaling {

  // ----- integer scaling -----

  predicate Sideways(rotation: int) {
    rotation == 90 || rotation == 270 || rotation == -90 || rotation == -270
  }

  function EffectiveDimensions(width: int, height: int, rotation: int): (int, int) {
    if Sideways(rotation) then (height, width) else (width, height)
  }

  function EnsureEven(n: int): int {
    if n % 2 != 0 then n - 1 else n
  }

  /** Conversion of an exact quotient to an integer truncates toward zero. */
  function TruncatedQuotient(a: int, b: int): int
    requires b > 0
  {
    if a >= 0 then a / b else -(-a / b)
  }

  function AtLeastTwo(n: int): int {
    if n < 2 then 2 else n
  }

  function EvenSide(n: int): int {
    AtLeastTwo(EnsureEven(n))
  }

  /** The scaled length of the longer side. */
  function LongSide(long: int, short: int, target: int): int
    requires short > 0
  {
    EvenSide(TruncatedQuotient(long * target, short))
  }

  /** The planned size: the shorter side after rotation becomes the target, the longer one follows. */
  function Planned(originalWidth: int, originalHeight: int, target: int, rotation: int): (int, int) {
    if originalWidth <= 0 || originalHeight <= 0 then (1920, 1080)
    else
      var (w, h) := EffectiveDimensions(originalWidth, originalHeight, rotation);
      if h > w then (EvenSide(target), LongSide(h, w, target)) else (LongSide(w, h, target), EvenSide(target))
  }

  method CalculateWithRotation(originalWidth: int, originalHeight: int, target: int, rotation: int)
    returns (width: int, height: int)
    ensures (width, height) == Planned(originalWidth, originalHeight, target, rotation)
    ensures EvenSides((width, height))
    ensures originalWidth > 0 && originalHeight > 0 && target >= 2 ==>
      Fits(EffectiveDimensions(originalWidth, originalHeight, rotation), target, (width, height))
  {
    PlannedFacts(originalWidth, originalHeight, target, rotation);
    if originalWidth <= 0 || originalHeight <= 0 {
      return 1920, 1080;
    }
    var w, h := originalWidth, originalHeight;
    if rotation == 90 || rotation == 270 || rotation == -90 || rotation == -270 {
      w, h := h, w;
    }
    var isPortrait := h > w;
    if isPortrait {
      width := target;
      height := TruncatedQuotient(h * target, w);
    } else {
      height := target;
      width := TruncatedQuotient(w * target, h);
    }
    width := EnsureEven(width);
    height := EnsureEven(height);
    if width < 2 {
      width := 2;
    }
    if height < 2 {
      height := 2;
    }
  }

  predicate EvenSides(size: (int, int)) {
    size.0 % 2 == 0 && size.1 % 2 == 0 && size.0 >= 2 && size.1 >= 2
  }

  lemma EvenSideIsEven(n: int)
    ensures EvenSide(n) % 2 == 0 && EvenSide(n) >= 2
  {
  }

  lemma PlannedFacts(w: int, h: int, target: int, rotation: int)
    ensures EvenSides(Planned(w, h, target, rotation))
    ensures w > 0 && h > 0 && target >= 2 ==>
      Fits(EffectiveDimensions(w, h, rotation), target, Planned(w, h, target, rotation))
  {
    if w > 0 && h > 0 {
      var (ew, eh) := EffectiveDimensions(w, h, rotation);
      EvenSideIsEven(target);
      EvenSideIsEven(TruncatedQuotient(ew * target, eh));
      EvenSideIsEven(TruncatedQuotient(eh * target, ew));
      if target >= 2 {
        ScalingBounds(w, h, target, rotation);
      }
    }
  }

  /** Both sides are even and at least 2, the short one is the target rounded down to even, and the long one
      keeps the aspect ratio up to less than two pixels. */
  lemma LongSideBounds(long: int, short: int, target: int)
    requires long >= short > 0 && target >= 2
    ensures var x := LongSide(long, short, target);
      x % 2 == 0 && x >= EnsureEven(target) && 0 <= long * target - x * short < 2 * short
  {
    var q := long * target / short;
    Grows(long, short, target);
    DivisionBounds(long * target, short);
    var x := EnsureEven(q);
    assert x * short == if x == q then q * short else q * short - short;
  }

  lemma DivisionBounds(a: int, b: int)
    requires a >= 0 && b > 0
    ensures 0 <= a - (a / b) * b < b
  {
  }

  lemma MulMono(a: int, b: int, c: int)
    requires a <= b && c >= 0
    ensures a * c <= b * c
  {
  }

  /** A quotient is determined by its bounds. */
  lemma QuotientOrder(p: int, a: int, q: int, b: int, d: int)
    requires d > 0 && a <= b && p * d <= a && b < q * d + d
    ensures p <= q
  {
    if q + 1 <= p {
      MulMono(q + 1, p, d);
    }
  }

  /** The scaled long side is at least the target. */
  lemma Grows(long: int, short: int, target: int)
    requires long >= short > 0 && target >= 0
    ensures long * target >= 0 && long * target / short >= target
  {
    MulMono(short, long, target);
    MulMono(0, short, target);
    DivisionBounds(long * target, short);
    QuotientOrder(target, target * short, long * target / short, long * target, short);
  }

  /** A size fits an upright source of shorter side S and longer side L: its shorter side is the target rounded down to
      even, and its longer one X keeps the ratio up to less than two pixels, 0 <= L*t - X*S < 2*S. */
  predicate Fits(upright: (int, int), target: int, size: (int, int)) {
    var (s, l, short, long) :=
      if upright.1 > upright.0 then (upright.0, upright.1, size.0, size.1) else (upright.1, upright.0, size.1, size.0);
    short == target - target % 2 && long >= short && 0 <= l * target - long * s < 2 * s
  }

  /** What the plan gives for a target of at least 2. */
  lemma ScalingBounds(w: int, h: int, target: int, rotation: int)
    requires w > 0 && h > 0 && target >= 2
    ensures var (pw, ph) := Planned(w, h, target, rotation);
      && pw % 2 == 0 && ph % 2 == 0 && pw >= 2 && ph >= 2
      && Fits(EffectiveDimensions(w, h, rotation), target, (pw, ph))
  {
    var (ew, eh) := EffectiveDimensions(w, h, rotation);
    if eh > ew {
      LongSideBounds(eh, ew, target);
    } else {
      LongSideBounds(ew, eh, target);
    }
  }

  /** Targets below 2 give a short side of 2; targets of 0 and less give 2 by 2. */
  lemma SmallTargets(w: int, h: int, target: int, rotation: int)
    requires w > 0 && h > 0 && target < 2
    ensures var (pw, ph) := Planned(w, h, target, rotation);
      (if pw < ph then pw else ph) == 2 && (target <= 0 ==> pw == 2 == ph)
  {
    var (ew, eh) := EffectiveDimensions(w, h, rotation);
    var (s, l) := if eh > ew then (ew, eh) else (eh, ew);
    if target <= 0 {
      NonPositiveQuotient(l, s, target);
    }
  }

  lemma NonPositiveQuotient(l: int, s: int, target: int)
    requires l > 0 && s > 0 && target <= 0
    ensures TruncatedQuotient(l * target, s) <= 0
  {
    MulMono(target, 0, l);
    QuotientMonotone(l * target, 0, s);
  }

  lemma QuotientMonotone(a: int, b: int, d: int)
    requires a <= b && d > 0
    ensures TruncatedQuotient(a, d) <= TruncatedQuotient(b, d)
  {
    if a >= 0 {
      NatQuotientMonotone(a, b, d);
    } else if b < 0 {
      NatQuotientMonotone(-b, -a, d);
    } else {
      NatQuotientMonotone(0, -a, d);
      NatQuotientMonotone(0, b, d);
    }
  }

  lemma NatQuotientMonotone(a: int, b: int, d: int)
    requires 0 <= a <= b && d > 0
    ensures 0 <= a / d <= b / d
  {
    DivisionBounds(a, d);
    DivisionBounds(b, d);
    QuotientOrder(a / d, a, b / d, b, d);
    QuotientOrder(0, 0, a / d, a, d);
  }

  /** A larger target never gives a smaller side. */
  lemma MonotoneInTarget(w: int, h: int, t1: int, t2: int, rotation: int)
    requires w > 0 && h > 0 && t1 <= t2
    ensures Planned(w, h, t1, rotation).0 <= Planned(w, h, t2, rotation).0
    ensures Planned(w, h, t1, rotation).1 <= Planned(w, h, t2, rotation).1
  {
    var (ew, eh) := EffectiveDimensions(w, h, rotation);
    var (s, l) := if eh > ew then (ew, eh) else (eh, ew);
    MulMono(t1, t2, l);
    QuotientMonotone(l * t1, l * t2, s);
  }

  /** Scaling commutes with swapping the sides, and a quarter turn is such a swap. */
  lemma CommutesWithSwap(w: int, h: int, target: int, rotation: int)
    requires w > 0 && h > 0
    ensures Planned(h, w, target, rotation) == (Planned(w, h, target, rotation).1, Planned(w, h, target, rotation).0)
    ensures Sideways(rotation) ==> Planned(w, h, target, rotation) == Planned(h, w, target, 0)
  {
    if w == h {
      SquareQuotient(w, target);
    }
  }

  lemma SquareQuotient(s: int, target: int)
    requires s > 0
    ensures TruncatedQuotient(s * target, s) == target
  {
    if target >= 0 {
      MulMono(0, target, s);
      MultipleQuotient(s, target);
    } else {
      MulMono(target, -1, s);
      MultipleQuotient(s, -target);
      assert -(s * target) == s * -target;
    }
  }

  lemma MultipleQuotient(s: int, n: int)
    requires s > 0 && n >= 0
    ensures s * n / s == n
  {
    MulMono(0, n, s);
    DivisionBounds(s * n, s);
    QuotientOrder(n, n * s, s * n / s, s * n, s);
    QuotientOrder(s * n / s, s * n, n, n * s, s);
  }

  // ----- floating point -----

  const TWO53: int := 9_007_199_254_740_992

  function Real(n: int): real {
    n as real
  }

  function Sixteenths(n: int): real {
    n as real / 16.0
  }

  /** What the proofs use of rounding to the nearest binary64 number: it is monotone, exact on integers and
      sixteenths up to 2^53, and off by at most half a unit in the last place. */
  ghost predicate RoundsToNearest(round: real -> real) {
    && (forall x: real, y: real {:trigger round(x), round(y)} :: x <= y ==> round(x) <= round(y))
    && (forall n: int {:trigger round(Real(n))} :: -TWO53 <= n <= TWO53 ==> round(Real(n)) == Real(n))
    && (forall n: int {:trigger round(Sixteenths(n))} :: -TWO53 <= n <= TWO53 ==> round(Sixteenths(n)) == Sixteenths(n))
    && (forall x: real {:trigger NearlyEqual(round(x), x)} ::
          1.0 <= Times53(x) && x <= Real(TWO53) ==> NearlyEqual(round(x), x))
  }

  function Times53(x: real): real {
    x * 9_007_199_254_740_992.0
  }

  predicate NearlyEqual(r: real, x: real) {
    -x <= Times53(r - x) <= x
  }

  /** `int(float64(a) * float64(t) / float64(b))` for non-negative values. */
  function FloatScaled(round: real -> real, a: int, t: int, b: int): int
    requires round(Real(b)) != 0.0
  {
    FloatOver(round, FloatTimes(round, round(Real(a)), round(Real(t))), round(Real(b))).Floor
  }

  /** One floating-point multiplication and one division. */
  function FloatTimes(round: real -> real, x: real, y: real): real {
    round(Product(x, y))
  }

  function Product(x: real, y: real): real {
    x * y
  }

  function FloatOver(round: real -> real, x: real, y: real): real
    requires y != 0.0
  {
    round(x / y)
  }

  lemma MulMonoReal(a: real, b: real, c: real)
    requires a <= b && c >= 0.0
    ensures a * c <= b * c
  {
  }

  lemma MulReal(a: int, b: int)
    ensures Real(a * b) == Real(a) * Real(b)
  {
  }

  lemma Times53Product(x: real, b: real)
    ensures Times53(x) * b == Times53(x * b)
  {
  }

  /** A number whose distance to `q` is worth at least one dividend unit does not round up to `q`. */
  lemma RoundedBelow(r: real, x: real, n: real, b: real, q: real)
    requires NearlyEqual(r, x) && b > 0.0 && x * b == n < Real(TWO53) && (q - x) * b >= 1.0
    ensures r < q
  {
    if q <= r {
      MulMonoReal(q - x, r - x, b);
      assert Times53((r - x) * b) >= Times53(1.0);
      Times53Product(r - x, b);
      MulMonoReal(Times53(r - x), x, b);
    }
  }

  lemma RoundedAbove(r: real, x: real, n: real, b: real, q: real)
    requires NearlyEqual(r, x) && b > 0.0 && x * b == n < Real(TWO53) && (x - q) * b >= 1.0
    ensures r > q
  {
    if q >= r {
      MulMonoReal(x - q, x - r, b);
      assert Times53((x - r) * b) >= Times53(1.0);
      Times53Product(x - r, b);
      MulMonoReal(Times53(x - r), x, b);
    }
  }

  lemma RealQuotient(n: int, b: int)
    requires b > 0
    ensures Real(n) / Real(b) * Real(b) == Real(n)
  {
  }

  lemma MulPositive(a: real, b: real)
    requires a > 0.0 && b > 0.0
    ensures a * b > 0.0
  {
  }

  lemma OrderFromProducts(x: real, y: real, b: real)
    requires b > 0.0 && x * b <= y * b
    ensures x <= y
  {
    if y < x {
      MulPositive(x - y, b);
    }
  }

  lemma OrderFromQuotients(x: real, p: real, y: real, q: real, b: real)
    requires b > 0.0 && x * b == p <= q == y * b
    ensures x <= y
  {
    OrderFromProducts(x, y, b);
  }

  /** A real quotient lies between its floor and, by at least one dividend unit, the next integer. */
  lemma QuotientBetween(n: int, b: int, q: int, x: real)
    requires b > 0 && q * b <= n < q * b + b && x * Real(b) == Real(n)
    ensures Real(q) <= x && (Real(q + 1) - x) * Real(b) >= 1.0
  {
    MulReal(q, b);
    OrderFromProducts(Real(q), x, Real(b));
    Distribute(Real(q + 1), x, Real(b));
    MulReal(q + 1, b);
    assert (q + 1) * b == q * b + b;
  }

  lemma Distribute(x: real, y: real, b: real)
    ensures (x - y) * b == x * b - y * b
  {
  }

  lemma QuotientRange(n: int, b: int, x: real)
    requires 0 < b <= n < TWO53 && x * Real(b) == Real(n)
    ensures 1.0 <= x <= Real(n) && 1.0 <= Times53(x)
  {
    OrderFromProducts(1.0, x, Real(b));
    MulMonoReal(1.0, Real(b), Real(n));
    OrderFromProducts(x, Real(n), Real(b));
  }

  /** A rounded quotient of integers has the floor of the exact quotient as long as the dividend is below 2^53. */
  lemma FloatQuotientExact(round: real -> real, n: int, b: int, q: int, x: real)
    requires RoundsToNearest(round) && 0 < b <= n < TWO53 && q * b <= n < q * b + b && x * Real(b) == Real(n)
    ensures round(x).Floor == q
  {
    QuotientBetween(n, b, q, x);
    QuotientRange(n, b, x);
    assert NearlyEqual(round(x), x);
    RoundedBelow(round(x), x, Real(n), Real(b), Real(q + 1));
    assert -1 <= q <= n;
    assert round(Real(q)) <= round(x);
  }

  lemma ProductBounds(long: int, short: int, target: int)
    requires 0 < short <= long && target >= 1
    ensures short <= long <= long * target && target <= long * target
  {
    MulMono(1, target, long);
    MulMono(1, long, target);
  }

  /** The floating-point expression of the code is the integer quotient of the plan. */
  lemma FloatScalingExact(round: real -> real, long: int, short: int, target: int)
    requires RoundsToNearest(round) && 0 < short <= long && target >= 1 && long * target < TWO53
    ensures round(Real(short)) != 0.0
    ensures FloatScaled(round, long, target, short) == TruncatedQuotient(long * target, short)
  {
    ProductBounds(long, short, target);
    MulReal(long, target);
    FloatDividedExact(round, long * target, short);
    assert round(Real(long)) == Real(long) && round(Real(target)) == Real(target);
    ExactOperands(round, long, target, short, long * target);
  }

  lemma ExactOperands(round: real -> real, a: int, t: int, b: int, n: int)
    requires round(Real(a)) == Real(a) && round(Real(t)) == Real(t) && round(Real(b)) == Real(b) != 0.0
    requires Product(Real(a), Real(t)) == Real(n) == round(Real(n))
    ensures FloatScaled(round, a, t, b) == round(Real(n) / Real(b)).Floor
  {
    assert FloatTimes(round, Real(a), Real(t)) == Real(n);
  }

  lemma FloatDividedExact(round: real -> real, n: int, b: int)
    requires RoundsToNearest(round) && 0 < b <= n < TWO53
    ensures round(Real(n)) == Real(n) && round(Real(b)) == Real(b) && round(Real(n) / Real(b)).Floor == n / b
  {
    DivisionBounds(n, b);
    RealQuotient(n, b);
    FloatQuotientExact(round, n, b, n / b, Real(n) / Real(b));
  }

  // ----- the aspect-ratio gate -----

  /** The checks on the probed size: no zero side, and a rounded aspect ratio between 1:16 and 16:1. */
  predicate AcceptsSize(round: real -> real, width: int, height: int) {
    width != 0 && height != 0 &&
    var h := round(Real(height));
    h != 0.0 &&
    var aspect := FloatOver(round, round(Real(width)), h);
    !(aspect < Sixteenths(1)) && !(aspect > Real(16))
  }

  const SIDE_LIMIT: int := 0x1_0000_0000_0000

  lemma SwapFactors(x: real, y: real, z: real)
    ensures (x * y) * z == (x * z) * y
  {
  }

  lemma AspectRange(width: int, height: int, x: real)
    requires 0 < width < SIDE_LIMIT && 0 < height < SIDE_LIMIT && x * Real(height) == Real(width)
    ensures 1.0 <= Times53(x) && x <= Real(TWO53)
  {
    var b := Real(height);
    MulMonoReal(1.0, b, Real(TWO53));
    OrderFromQuotients(x, Real(width), Real(TWO53), Real(TWO53) * b, b);
    Times53Product(x, b);
    OrderFromQuotients(1.0, b, Times53(x), Times53(Real(width)), b);
  }

  /** Despite rounding, the gate accepts exactly the positive sizes between 1:16 and 16:1. */
  lemma PositiveGate(round: real -> real, width: int, height: int)
    requires RoundsToNearest(round) && 0 < width < SIDE_LIMIT && 0 < height < SIDE_LIMIT
    ensures AcceptsSize(round, width, height) <==> height <= 16 * width && width <= 16 * height
  {
    var x, b := Real(width) / Real(height), Real(height);
    RealQuotient(width, height);
    AspectRange(width, height, x);
    assert NearlyEqual(round(x), x);
    assert round(Real(width)) == Real(width) && round(Real(height)) == Real(height);
    GateUpper(round, width, height, x);
    GateLower(round, width, height, x);
  }

  lemma QuotientOfNegatives(w: int, h: int)
    requires h < 0
    ensures Real(w) / Real(h) == Real(-w) / Real(-h)
    ensures w >= 0 ==> Real(w) / Real(h) <= 0.0
  {
  }

  lemma QuotientNotPositive(w: int, h: int)
    requires w <= 0 && h > 0
    ensures Real(w) / Real(h) <= 0.0
  {
  }

  /** A quotient that is not positive does not round above zero, so it is below the gate. */
  lemma NotPositiveRejected(round: real -> real, width: int, height: int)
    requires RoundsToNearest(round) && -SIDE_LIMIT < width < SIDE_LIMIT && -SIDE_LIMIT < height < SIDE_LIMIT
    requires height != 0 && Real(width) / Real(height) <= 0.0
    ensures !AcceptsSize(round, width, height)
  {
    assert round(Real(width)) == Real(width) && round(Real(height)) == Real(height) && round(Real(0)) == Real(0);
    assert round(Real(width) / Real(height)) <= round(Real(0));
  }

  lemma NegativeGate(round: real -> real, width: int, height: int)
    requires RoundsToNearest(round) && -SIDE_LIMIT < width < 0 && -SIDE_LIMIT < height < 0
    ensures AcceptsSize(round, width, height) <==> AcceptsSize(round, -width, -height)
  {
    assert round(Real(width)) == Real(width) && round(Real(height)) == Real(height);
    assert round(Real(-width)) == Real(-width) && round(Real(-height)) == Real(-height);
    QuotientOfNegatives(width, height);
  }

  function Abs(n: int): int {
    if n < 0 then -n else n
  }

  /** For sides of either sign: the gate accepts exactly the sizes whose sides have the same sign and a ratio between
      1:16 and 16:1. */
  lemma GateIsExact(round: real -> real, width: int, height: int)
    requires RoundsToNearest(round) && Abs(width) < SIDE_LIMIT && Abs(height) < SIDE_LIMIT
    ensures AcceptsSize(round, width, height) <==>
            ((width > 0 && height > 0) || (width < 0 && height < 0)) &&
            Abs(height) <= 16 * Abs(width) && Abs(width) <= 16 * Abs(height)
  {
    if width > 0 && height > 0 {
      PositiveGate(round, width, height);
    } else if width < 0 && height < 0 {
      NegativeGate(round, width, height);
      PositiveGate(round, -width, -height);
    } else if height > 0 {
      QuotientNotPositive(width, height);
      NotPositiveRejected(round, width, height);
    } else if height < 0 {
      QuotientOfNegatives(width, height);
      NotPositiveRejected(round, width, height);
    }
  }

  lemma GateUpper(round: real -> real, width: int, height: int, x: real)
    requires RoundsToNearest(round) && 0 < width < SIDE_LIMIT && 0 < height < SIDE_LIMIT
    requires x * Real(height) == Real(width) && NearlyEqual(round(x), x)
    ensures round(x) > Real(16) <==> width > 16 * height
  {
    MulReal(16, height);
    if width > 16 * height {
      Distribute(x, Real(16), Real(height));
      assert (x - Real(16)) * Real(height) >= 1.0;
      RoundedAbove(round(x), x, Real(width), Real(height), Real(16));
    } else {
      OrderFromProducts(x, Real(16), Real(height));
      assert round(x) <= round(Real(16));
    }
  }

  lemma ScaledAspect(width: int, height: int, x: real)
    requires x * Real(height) == Real(width)
    ensures x * Real(16 * height) == Real(16 * width) && Sixteenths(1) * Real(16 * height) == Real(height)
  {
    MulReal(16, height);
    MulReal(16, width);
    SwapFactors(x, Real(16), Real(height));
    assert Sixteenths(1) * Real(16) == 1.0;
    SwapFactors(Sixteenths(1), Real(16), Real(height));
    assert x * Real(16 * height) == x * (Real(16) * Real(height)) == (x * Real(16)) * Real(height);
    assert Sixteenths(1) * (Real(16) * Real(height)) == (Sixteenths(1) * Real(16)) * Real(height);
  }

  lemma GateLower(round: real -> real, width: int, height: int, x: real)
    requires RoundsToNearest(round) && 0 < width < SIDE_LIMIT && 0 < height < SIDE_LIMIT
    requires x * Real(height) == Real(width) && NearlyEqual(round(x), x)
    ensures round(x) < Sixteenths(1) <==> height > 16 * width
  {
    ScaledAspect(width, height, x);
    if height > 16 * width {
      Distribute(Sixteenths(1), x, Real(16 * height));
      RoundedBelow(round(x), x, Real(16 * width), Real(16 * height), Sixteenths(1));
    } else {
      OrderFromQuotients(Sixteenths(1), Real(height), x, Real(16 * width), Real(16 * height));
      assert round(Sixteenths(1)) <= round(x);
    }
  }

  lemma NarrowStaysNarrow(long: int, l: int, s: int, target: int)
    requires s > 0 && target >= 0 && l <= 16 * s && long * s <= l * target
    ensures long <= 16 * target
  {
    MulMono(l, 16 * s, target);
    assert 16 * s * target == 16 * target * s;
    QuotientOrder(long, long * s, 16 * target, 16 * target * s, s);
  }

  lemma PositiveStaysInBounds(round: real -> real, w: int, h: int, target: int, rotation: int)
    requires RoundsToNearest(round) && 0 < w < SIDE_LIMIT && 0 < h < SIDE_LIMIT
    requires AcceptsSize(round, w, h) && target >= 2
    ensures var (pw, ph) := Planned(w, h, target, rotation); 2 <= pw <= 16 * target && 2 <= ph <= 16 * target
  {
    PositiveGate(round, w, h);
    ScalingBounds(w, h, target, rotation);
    var (ew, eh) := EffectiveDimensions(w, h, rotation);
    var (s, l) := if eh > ew then (ew, eh) else (eh, ew);
    var (pw, ph) := Planned(w, h, target, rotation);
    NarrowStaysNarrow(if eh > ew then ph else pw, l, s, target);
  }

  /** An accepted video is scaled to sides of at most sixteen times the target if and only if its sides are positive or
      the fallback of 1920 by 1080, which two negative sides get, is that small. */
  lemma AcceptedVideosStayInBounds(round: real -> real, w: int, h: int, target: int, rotation: int)
    requires RoundsToNearest(round) && Abs(w) < SIDE_LIMIT && Abs(h) < SIDE_LIMIT
    requires AcceptsSize(round, w, h) && target >= 2
    ensures (var (pw, ph) := Planned(w, h, target, rotation); 2 <= pw <= 16 * target && 2 <= ph <= 16 * target)
            <==> w > 0 || target >= 120
    ensures w < 0 ==> Planned(w, h, target, rotation) == (1920, 1080)
  {
    GateIsExact(round, w, h);
    if w > 0 {
      PositiveStaysInBounds(round, w, h, target, rotation);
    }
  }

  /** The gate only excludes zero sides: every size with two negative sides in that ratio passes, and is planned as the
      fallback whatever the target. */
  lemma NegativeSizesPassTheGate(round: real -> real, w: int, h: int, target: int, rotation: int)
    requires RoundsToNearest(round) && -SIDE_LIMIT < w < 0 && -SIDE_LIMIT < h < 0
    requires Abs(h) <= 16 * Abs(w) && Abs(w) <= 16 * Abs(h)
    ensures AcceptsSize(round, w, h) && Planned(w, h, target, rotation) == (1920, 1080)
  {
    GateIsExact(round, w, h);
  }
}
