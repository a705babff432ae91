// The integer arithmetic of mouse aim: the accumulator that scales motion and carries the sub-pixel
// remainder from one event to the next, the region that holds the contact, and the threshold past which
// it is recentred (crates/wroid-runtime/src/mouse_aim.rs).

module AimMotion {
  import opened Arithmetic
  import opened Wrappers

  const I64_MAX := 0x7FFF_FFFF_FFFF_FFFF
  const I64_MIN := -0x8000_0000_0000_0000

  function Saturate(v: int): int {
    if v > I64_MAX then I64_MAX else if v < I64_MIN then I64_MIN else v
  }

  // Rust's / and %: towards zero, the remainder with the sign of the dividend.
  function TruncDiv(n: int, d: int): (q: int)
    requires d > 0
  {
    if n >= 0 then n / d else -((-n) / d)
  }

  function TruncRem(n: int, d: int): (r: int)
    requires d > 0
    ensures -d < r < d
    ensures n >= 0 ==> r >= 0
    ensures n <= 0 ==> r <= 0
  {
    if n >= 0 then n % d else -((-n) % d)
  }

  datatype Stepped = Stepped(whole: int, carry: int)

  function Dividend(carry: int, delta: int, numerator: int): int {
    Saturate(Saturate(delta * numerator) + carry)
  }

  function Step(carry: int, delta: int, numerator: int, denominator: int): Stepped
    requires denominator >= 0
  {
    if denominator == 0 then Stepped(0, carry)
    else
      var scaled := Dividend(carry, delta, numerator);
      Stepped(TruncDiv(scaled, denominator), TruncRem(scaled, denominator))
  }

  // A step loses nothing exactly when neither 64-bit operation saturates.
  predicate Fits(carry: int, delta: int, numerator: int) {
    && I64_MIN <= delta * numerator <= I64_MAX
    && I64_MIN <= delta * numerator + carry <= I64_MAX
  }

  lemma StepConserves(carry: int, delta: int, numerator: int, denominator: int)
    requires 0 < denominator <= I64_MAX && -denominator < carry < denominator
    ensures var step := Step(carry, delta, numerator, denominator);
            && (step.whole * denominator + step.carry == delta * numerator + carry <==> Fits(carry, delta, numerator))
            && -denominator < step.carry < denominator
  {
  }

  lemma ProductBound(a: int, bound: nat, b: nat, limit: nat)
    requires 0 <= bound + a && a <= bound && b <= limit
    ensures 0 <= bound * limit + a * b && a * b <= bound * limit
    ensures a >= 0 ==> a * b >= 0
  {
  }

  // ---------------------------------------------------------------------------------------
  // Which scale is in force

  // Neither part is zero, as MouseAimSensitivity::new sees to.
  type Positive = x: int | 0 < x < 0x1_0000_0000 witness 1

  datatype Sensitivity = Sensitivity(numerator: Positive, denominator: Positive)

  datatype Ratio = Ratio(numerator: int, denominator: int)

  // Aiming down sights multiplies the two ratios, each product saturating.
  function InForce(sensitivity: Sensitivity, sighted: bool, multiplier: Option<Sensitivity>): (r: Ratio)
    ensures 0 < r.denominator <= I64_MAX
  {
    if sighted && multiplier.Some? then
      ProductBound(sensitivity.denominator, U32_LIMIT, multiplier.value.denominator, U32_LIMIT);
      Ratio(Saturate(sensitivity.numerator * multiplier.value.numerator),
            Saturate(sensitivity.denominator * multiplier.value.denominator))
    else Ratio(sensitivity.numerator, sensitivity.denominator)
  }

  // ---------------------------------------------------------------------------------------
  // Which motion fits

  ghost predicate AlwaysFits(delta: int, numerator: int, denominator: int) {
    forall carry | -denominator < carry < denominator :: Fits(carry, delta, numerator)
  }

  // Whatever remainder is carried, an event saturates nothing exactly if the product of motion and
  // numerator leaves room for it.
  lemma FitsWithRoom(delta: int, numerator: int, denominator: int)
    requires 0 < denominator <= I64_MAX
    ensures AlwaysFits(delta, numerator, denominator) <==>
              I64_MIN <= delta * numerator - (denominator - 1) && delta * numerator + denominator - 1 <= I64_MAX
  {
    if AlwaysFits(delta, numerator, denominator) {
      assert Fits(denominator - 1, delta, numerator) && Fits(1 - denominator, delta, numerator);
    }
  }

  // Under 32-bit numerators and denominators events of less than 2^30 counts always fit ...
  lemma OrdinaryMotionFits(delta: int, scale: Ratio)
    requires -0x4000_0000 < delta < 0x4000_0000
    requires 0 <= scale.numerator < U32_LIMIT && 0 < scale.denominator < U32_LIMIT
    ensures AlwaysFits(delta, scale.numerator, scale.denominator)
  {
    ProductBound(delta, 0x4000_0000, scale.numerator, U32_LIMIT);
  }

  // ... and while aiming down sights, with both ratios in thousandths and the multiplier at most one,
  // as a profile's are, events of less than 2^20 do.
  lemma SightedMotionFits(delta: int, sensitivity: Sensitivity, multiplier: Sensitivity)
    requires -0x10_0000 < delta < 0x10_0000
    requires sensitivity.denominator == 1000 && multiplier.denominator == 1000 && multiplier.numerator <= 1000
    ensures var scale := InForce(sensitivity, true, Some(multiplier));
            && scale == Ratio(sensitivity.numerator * multiplier.numerator, 1_000_000)
            && AlwaysFits(delta, scale.numerator, scale.denominator)
  {
    ProductBound(sensitivity.numerator, U32_LIMIT, multiplier.numerator, 1000);
    ProductBound(delta, 0x10_0000, sensitivity.numerator * multiplier.numerator, U32_LIMIT * 1000);
  }

  datatype Scaled = Scaled(x: int, y: int, accumulator: ScaleAccumulator)

  // The remainders of both axes.
  datatype ScaleAccumulator = ScaleAccumulator(carryX: int, carryY: int) {
    predicate Below(denominator: int) {
      -denominator < carryX < denominator && -denominator < carryY < denominator
    }

    // What an event becomes under a scale.
    function Scaling(dx: int, dy: int, scale: Ratio): Scaled
      requires scale.denominator >= 0
    {
      var x, y := Step(carryX, dx, scale.numerator, scale.denominator),
          Step(carryY, dy, scale.numerator, scale.denominator);
      Scaled(x.whole, y.whole, ScaleAccumulator(x.carry, y.carry))
    }

    method Scale(dx: int, dy: int, numerator: int, denominator: int)
      returns (x: int, y: int, after: ScaleAccumulator)
      requires denominator >= 0
      ensures Scaled(x, y, after) == Scaling(dx, dy, Ratio(numerator, denominator))
      ensures 0 < denominator <= I64_MAX && Below(denominator) ==>
                && after.Below(denominator)
                && (x * denominator + after.carryX == dx * numerator + carryX <==> Fits(carryX, dx, numerator))
                && (y * denominator + after.carryY == dy * numerator + carryY <==> Fits(carryY, dy, numerator))
    {
      x, y, after := 0, 0, this;
      if denominator == 0 {
        return;
      }
      var scaledX := Saturate(Saturate(dx * numerator) + carryX);
      x, after := TruncDiv(scaledX, denominator), after.(carryX := TruncRem(scaledX, denominator));
      var scaledY := Saturate(Saturate(dy * numerator) + carryY);
      y, after := TruncDiv(scaledY, denominator), after.(carryY := TruncRem(scaledY, denominator));
      if denominator <= I64_MAX && Below(denominator) {
        StepConserves(carryX, dx, numerator, denominator);
        StepConserves(carryY, dy, numerator, denominator);
      }
    }
  }

  const NO_REMAINDER := ScaleAccumulator(0, 0)

  // ---------------------------------------------------------------------------------------
  // Where a contact goes

  datatype Region = Region(left: U32, top: U32, right: U32, bottom: U32) {
    predicate NonEmpty() { left <= right && top <= bottom }

    // MouseAimRegion::validate
    predicate Within(width: U32, height: U32) { NonEmpty() && right < width && bottom < height }

    predicate Contains(p: Point) { left <= p.x <= right && top <= p.y <= bottom }

    function Clamp(p: Point): (q: Point)
      requires NonEmpty()
      ensures Contains(q)
      ensures Contains(p) ==> q == p
    {
      Point(ClampAxis(p.x, left, right), ClampAxis(p.y, top, bottom))
    }

    function Center(): (p: Point)
      requires NonEmpty()
      ensures Contains(p)
    {
      Point(left + (right - left) / 2, top + (bottom - top) / 2)
    }
  }

  function ClampAxis(v: U32, low: U32, high: U32): U32 {
    if v < low then low else if v > high then high else v
  }

  // 64-bit addition without a check wraps around.
  function Wrapped(v: int): int {
    if v > I64_MAX then v - (I64_MAX - I64_MIN + 1) else if v < I64_MIN then v + (I64_MAX - I64_MIN + 1) else v
  }

  function OffsetAxis(value: U32, delta: int): U32 {
    var moved := Wrapped(value + delta);
    if moved <= 0 then 0 else if moved >= U32_MAX then U32_MAX else moved
  }

  function Offset(p: Point, dx: int, dy: int): Point {
    Point(OffsetAxis(p.x, dx), OffsetAxis(p.y, dy))
  }

  // Moving and clamping is moving as far as the region goes, for any motion that does not wrap.
  lemma ClampedMove(region: Region, p: Point, dx: int, dy: int)
    requires region.NonEmpty() && region.Contains(p)
    requires I64_MIN <= p.x + dx <= I64_MAX && I64_MIN <= p.y + dy <= I64_MAX
    ensures var q := region.Clamp(Offset(p, dx, dy));
            && (region.left <= p.x + dx <= region.right ==> q.x == p.x + dx)
            && (p.x + dx < region.left ==> q.x == region.left) && (p.x + dx > region.right ==> q.x == region.right)
            && (region.top <= p.y + dy <= region.bottom ==> q.y == p.y + dy)
            && (p.y + dy < region.top ==> q.y == region.top) && (p.y + dy > region.bottom ==> q.y == region.bottom)
  {
  }

  const U64_MAX := 0xFFFF_FFFF_FFFF_FFFF

  // past_recenter_threshold: farther from the origin than the given part of the shorter half side.
  predicate PastThreshold(region: Region, origin: Point, milli: U16, target: Point)
    requires region.NonEmpty()
  {
    var half := Shorter((region.right - region.left) / 2, (region.bottom - region.top) / 2);
    var radius := half * milli / 1000;
    var dx, dy := target.x - origin.x, target.y - origin.y;
    var distance := Saturate(Saturate(dx * dx) + Saturate(dy * dy));
    distance > if radius * radius > U64_MAX then U64_MAX else radius * radius
  }

  function Shorter(a: nat, b: nat): nat { if a < b then a else b }

  // On surfaces of less than 2^31 pixels a side the saturations do not show: the threshold is a circle.
  lemma ThresholdIsACircle(region: Region, origin: Point, milli: U16, target: Point)
    requires region.Within(I32_LIMIT - 1, I32_LIMIT - 1) && region.Contains(origin) && region.Contains(target)
    requires milli <= 1000
    ensures var radius := Shorter((region.right - region.left) / 2, (region.bottom - region.top) / 2) * milli / 1000;
            var dx, dy := target.x - origin.x, target.y - origin.y;
            PastThreshold(region, origin, milli, target) <==> dx * dx + dy * dy > radius * radius
  {
    var half := Shorter((region.right - region.left) / 2, (region.bottom - region.top) / 2);
    var radius := half * milli / 1000;
    Ordered(milli, 1000, half);
    DivMonotone(half * milli, half * 1000, 1000);
    SquareBound(radius, I32_LIMIT);
    SquareBound(target.x - origin.x, I32_LIMIT);
    SquareBound(target.y - origin.y, I32_LIMIT);
  }

  lemma SquareBound(a: int, bound: nat)
    requires 0 <= a + bound && a <= bound
    ensures 0 <= a * a <= bound * bound
  {
  }

  // ---------------------------------------------------------------------------------------
  // Runs of events

  // What a run of events adds up to.
  function Travel(carry: int, deltas: seq<int>, numerator: int, denominator: int): Stepped
    requires denominator >= 0
    decreases |deltas|
  {
    if deltas == [] then Stepped(0, carry)
    else
      var before := Travel(carry, deltas[..|deltas| - 1], numerator, denominator);
      var step := Step(before.carry, deltas[|deltas| - 1], numerator, denominator);
      Stepped(before.whole + step.whole, step.carry)
  }

  function Sum(deltas: seq<int>): int
    decreases |deltas|
  {
    if deltas == [] then 0 else Sum(deltas[..|deltas| - 1]) + deltas[|deltas| - 1]
  }

  ghost predicate AllFit(carry: int, deltas: seq<int>, numerator: int, denominator: int)
    requires denominator > 0
  {
    forall i | 0 <= i < |deltas| :: Fits(Travel(carry, deltas[..i], numerator, denominator).carry, deltas[i], numerator)
  }

  // Conservation over any run: travel and remainder account for all of the scaled motion, and the
  // remainder is less than one pixel. However slow the motion, none of it vanishes.
  lemma {:induction false} TravelConserves(deltas: seq<int>, numerator: int, denominator: int)
    requires 0 < denominator <= I64_MAX && AllFit(0, deltas, numerator, denominator)
    ensures var run := Travel(0, deltas, numerator, denominator);
            && run.whole * denominator + run.carry == Sum(deltas) * numerator
            && -denominator < run.carry < denominator
    decreases |deltas|
  {
    if deltas != [] {
      var front, last := deltas[..|deltas| - 1], deltas[|deltas| - 1];
      assert AllFit(0, front, numerator, denominator) by {
        forall i | 0 <= i < |front| ensures Fits(Travel(0, front[..i], numerator, denominator).carry, front[i],
                                                 numerator) {
          assert front[..i] == deltas[..i];
        }
      }
      TravelConserves(front, numerator, denominator);
      var before := Travel(0, front, numerator, denominator);
      StepConserves(before.carry, last, numerator, denominator);
      var step := Step(before.carry, last, numerator, denominator);
      Distribute(before.whole, step.whole, denominator);
      Distribute(Sum(front), last, numerator);
    }
  }

  // Motion in one direction travels exactly as far as if it had come in a single event, however
  // it was split up.
  lemma {:induction false} SteadyTravel(deltas: seq<int>, numerator: int, denominator: int)
    requires 0 < denominator <= I64_MAX && numerator >= 0 && AllFit(0, deltas, numerator, denominator)
    requires forall i | 0 <= i < |deltas| :: deltas[i] >= 0
    ensures Travel(0, deltas, numerator, denominator).carry >= 0
    ensures Sum(deltas) >= 0
    ensures Travel(0, deltas, numerator, denominator).whole == Sum(deltas) * numerator / denominator
  {
    TravelConserves(deltas, numerator, denominator);
    CarryStaysPositive(deltas, numerator, denominator);
    var run := Travel(0, deltas, numerator, denominator);
    DivIs(Sum(deltas) * numerator, denominator, run.whole);
  }

  lemma {:induction false} CarryStaysPositive(deltas: seq<int>, numerator: int, denominator: int)
    requires denominator > 0 && numerator >= 0
    requires forall i | 0 <= i < |deltas| :: deltas[i] >= 0
    ensures Travel(0, deltas, numerator, denominator).carry >= 0 && Sum(deltas) >= 0
    decreases |deltas|
  {
    if deltas != [] {
      var front, last := deltas[..|deltas| - 1], deltas[|deltas| - 1];
      CarryStaysPositive(front, numerator, denominator);
      assert last * numerator >= 0;
    }
  }
}
