// Control profiles: validation, and scaling to another resolution (crates/wroid-core/src/lib.rs).
// Trimming of white space is a parameter.

module Scaling {
  import opened Arithmetic
  import opened Wrappers

  datatype Resolution = Resolution(width: U32, height: U32) {
    predicate NonZero() { width != 0 && height != 0 }

    predicate Contains(p: Point) { p.x < width && p.y < height }
  }

  datatype BindingInput =
    | Key(key: string)
    | KeyCluster(up: string, left: string, down: string, right: string)
    | MouseButton(button: string)

  datatype BindingAction =
    | Tap(point: Point)
    | Swipe(start: Point, end: Point, durationMs: nat)
    | VirtualJoystick(center: Point, radius: U32, tickMs: nat, swipeDurationMs: nat)
    | MouseAim(anchor: Point)
    | Macro(steps: seq<BindingAction>)

  datatype Binding = Binding(name: string, input: BindingInput, action: BindingAction)

  datatype Profile = Profile(name: string, packageName: string, resolution: Resolution, bindings: seq<Binding>)

  datatype ValidationError =
    | EmptyProfileName
    | EmptyPackageName
    | InvalidResolution(resolution: Resolution)
    | EmptyBindingName
    | DuplicateBindingName(name: string)
    | EmptyInputValue(binding: string)
    | PointOutOfBounds(binding: string, point: Point, resolution: Resolution)
    | ZeroSwipeDuration(binding: string)
    | ZeroJoystickRadius(binding: string)
    | ZeroJoystickTick(binding: string)
    | ZeroJoystickSwipeDuration(binding: string)
    | UnsupportedAction(binding: string)

  // ---------------------------------------------------------------------------------------
  // Scaling one axis

  // To the nearest pixel. The u128 products cannot overflow.
  function Rounded(value: nat, from: nat, to: nat): nat
    requires from > 0
  {
    (value * to + from / 2) / from
  }

  // Rounds, and clamps to the last pixel: always a pixel of the target.
  function ScaleAxis(value: U32, from: U32, to: U32): (scaled: U32)
    ensures to > 0 ==> scaled < to
  {
    if from == 0 || to == 0 then 0
    else
      var rounded := Rounded(value, from, to);
      if rounded < to - 1 then rounded else to - 1
  }

  lemma ScaleAxisMonotone(low: U32, high: U32, from: U32, to: U32)
    requires low <= high
    ensures ScaleAxis(low, from, to) <= ScaleAxis(high, from, to)
  {
    if from != 0 && to != 0 {
      RoundedMonotone(low, high, from, to);
    }
  }

  // Off by at most half a pixel, or under a whole one where the last pixel is the limit.
  lemma ScaleAxisError(value: U32, from: U32, to: U32)
    requires value < from && to > 0
    ensures var scaled, rounded := ScaleAxis(value, from, to), Rounded(value, from, to);
            var v: int, f: int, t: int, s: int := value, from, to, scaled;
            && (rounded < to ==> scaled == rounded && -f <= 2 * (s * f - v * t) <= f)
            && (rounded >= to ==> scaled == to - 1 && 0 < v * t - s * f < f)
  {
    var rounded := Rounded(value, from, to);
    DivBounds(value * to + from / 2, from);
    Ordered(value + 1, from, to);
    if rounded >= to {
      Ordered(to, rounded, from);
      assert (to - 1) * from == to * from - from;
      assert from * to == to * from;
    }
  }

  lemma UpscaleUnclamped(value: U32, from: U32, to: U32)
    requires value < from <= to
    ensures Rounded(value, from, to) < to
  {
    DivBounds(value * to + from / 2, from);
    Ordered(value + 1, from, to);
    assert from * to == to * from;
    assert value * to + to == (value + 1) * to;
    if Rounded(value, from, to) >= to {
      Ordered(to, Rounded(value, from, to), from);
    }
  }

  lemma RoundedUpThenDown(value: nat, from: nat, to: nat)
    requires 0 < from <= to
    ensures Rounded(Rounded(value, from, to), to, from) == value
  {
    var scaled := Rounded(value, from, to);
    DivBounds(value * to + from / 2, from);
    if from == to {
      DivIs(value * to + from / 2, from, value);
      DivIs(scaled * from + to / 2, to, value);
    } else {
      assert value * to <= scaled * from + to / 2 < value * to + to;
      DivIs(scaled * from + to / 2, to, value);
    }
  }

  // Enlarging and then shrinking back loses nothing.
  lemma UpThenDown(value: U32, from: U32, to: U32)
    requires value < from <= to
    ensures ScaleAxis(ScaleAxis(value, from, to), to, from) == value
  {
    UpscaleUnclamped(value, from, to);
    RoundedUpThenDown(value, from, to);
  }

  // The same resolution changes nothing.
  lemma SameScale(value: U32, from: U32)
    requires value < from
    ensures ScaleAxis(value, from, from) == value
  {
    DivIs(value * from + from / 2, from, value);
  }

  // ---------------------------------------------------------------------------------------
  // Radius, points, actions, profiles

  // A length in both axes at once, by the average of their scales, to the nearest pixel.
  function RoundedRadius(radius: nat, from: Resolution, to: Resolution): nat
    requires from.NonZero()
  {
    AreaIsPositive(from);
    (radius * Sides(from, to) + from.width * from.height) / (2 * (from.width * from.height))
  }

  // The sum of the two scales, over the common denominator.
  function Sides(from: Resolution, to: Resolution): nat {
    to.width * from.height + to.height * from.width
  }

  function ClampRadius(rounded: nat): U32 {
    if rounded < 1 then 1 else if rounded > U32_MAX then U32_MAX else rounded
  }

  function ScaleRadius(radius: U32, from: Resolution, to: Resolution): (scaled: U32)
    ensures radius > 0 && from.NonZero() && to.NonZero() ==> scaled >= 1
  {
    if radius == 0 || !from.NonZero() || !to.NonZero() then 0
    else ClampRadius(RoundedRadius(radius, from, to))
  }

  lemma AreaIsPositive(r: Resolution)
    requires r.NonZero()
    ensures r.width * r.height > 0
  {
  }

  lemma SameRadius(radius: nat, from: Resolution)
    requires from.NonZero()
    ensures RoundedRadius(radius, from, from) == radius
  {
    AreaIsPositive(from);
    var area := from.width * from.height;
    assert Sides(from, from) == 2 * area;
    DivIs(radius * (2 * area) + area, 2 * area, radius);
  }

  // Off by at most half a pixel from the average of the two scales, unless it is clamped to one.
  lemma ScaleRadiusError(radius: U32, from: Resolution, to: Resolution)
    requires radius > 0 && from.NonZero() && to.NonZero()
    ensures var scaled, area := ScaleRadius(radius, from, to), from.width * from.height;
            var exact := radius * (to.width * from.height + to.height * from.width);
            && (scaled < U32_MAX ==> 2 * area * scaled >= exact - area)
            && (scaled > 1 ==> 2 * area * scaled <= exact + area)
  {
    var area, exact := from.width * from.height, radius * Sides(from, to);
    AreaIsPositive(from);
    DivBounds(exact + area, 2 * area);
    var rounded := RoundedRadius(radius, from, to);
    assert 2 * area * rounded == rounded * (2 * area);
    if rounded < 1 {
      Ordered(rounded, 1, 2 * area);
    } else if rounded > U32_MAX {
      Ordered(U32_MAX, rounded, 2 * area);
      assert 2 * area * U32_MAX == U32_MAX * (2 * area);
    }
  }

  predicate SameAspect(from: Resolution, to: Resolution) {
    from.width * to.height == from.height * to.width
  }

  // Where both axes scale alike, a radius scales like a length on one of them ...
  lemma RadiusLikeAxis(radius: nat, from: Resolution, to: Resolution)
    requires from.NonZero() && SameAspect(from, to)
    ensures RoundedRadius(radius, from, to) == Rounded(radius, from.width, to.width)
  {
    hide SameAspect, Sides;
    var x, w, h := radius * to.width, from.width, from.height;
    RadiusNumerator(radius, from, to);
    HalfDoubled(x, w);
    CancelFactor(2 * x + w, 2 * w, h);
    Associate(2, w, h);
  }

  lemma RadiusNumerator(radius: nat, from: Resolution, to: Resolution)
    requires SameAspect(from, to)
    ensures radius * Sides(from, to) + from.width * from.height
         == (2 * (radius * to.width) + from.width) * from.height
  {
  }

  // ... and comes back from a larger resolution exactly, unless it left 32 bits on the way.
  lemma RadiusUpThenDown(radius: U32, from: Resolution, to: Resolution)
    requires radius > 0 && from.NonZero() && from.width <= to.width && SameAspect(from, to)
    requires RoundedRadius(radius, from, to) <= U32_MAX
    ensures ScaleRadius(ScaleRadius(radius, from, to), to, from) == radius
  {
    HeightIsPositive(from, to);
    RadiusLikeAxis(radius, from, to);
    RoundedUpThenDown(radius, from.width, to.width);
    if Rounded(radius, from.width, to.width) == 0 {
      DivIs(0 * from.width + to.width / 2, to.width, 0);
    }
    RadiusLikeAxis(ScaleRadius(radius, from, to), to, from);
  }

  lemma HeightIsPositive(from: Resolution, to: Resolution)
    requires from.NonZero() && from.width <= to.width && SameAspect(from, to)
    ensures to.NonZero()
  {
  }

  // By how much the two axes disagree: zero exactly if they scale alike.
  function Skew(from: Resolution, to: Resolution): int {
    to.width * from.height - to.height * from.width
  }

  // From this radius on the way up and back is seen to add something.
  ghost predicate Large(radius: nat, from: Resolution, to: Resolution) {
    radius * (Skew(from, to) * Skew(from, to))
      >= from.width * from.height * (Sides(from, to) + 2 * (to.width * to.height))
  }

  // Up and back multiplies by the square of the average scale over the product of the scales, which
  // is more than one if they differ. So every radius from an explicit one on comes back larger.
  lemma RadiusGrows(radius: nat, from: Resolution, to: Resolution)
    requires from.NonZero() && to.NonZero() && Large(radius, from, to)
    ensures RoundedRadius(RoundedRadius(radius, from, to), to, from) > radius
  {
    AreaIsPositive(from);
    AreaIsPositive(to);
    var half, half', n := from.width * from.height, to.width * to.height, Sides(from, to);
    var up := RoundedRadius(radius, from, to);
    DivBounds(radius * n + half, 2 * half);
    LargeGrows(radius, from, to);
    Growth(radius, up, n, half, half');
    DivAtLeast(up * n + half', 2 * half', radius + 1);
  }

  lemma LargeGrows(radius: nat, from: Resolution, to: Resolution)
    requires Large(radius, from, to)
    ensures var half, half', n := from.width * from.height, to.width * to.height, Sides(from, to);
            Sides(to, from) == n && (radius * n - half) * n >= 4 * (radius * (half * half')) + 2 * (half * half')
  {
    var half, half', n := from.width * from.height, to.width * to.height, Sides(from, to);
    var e := Skew(from, to) * Skew(from, to);
    SidesSquared(from, to);
    hide Sides, Skew;
    Distribute(n, 2 * half', half);
    Associate(2, half', half);
    Grown(radius, n, half, half * half', e);
  }

  lemma SidesSquared(from: Resolution, to: Resolution)
    ensures Sides(from, to) == Sides(to, from)
    ensures Sides(from, to) * Sides(from, to)
         == 4 * (from.width * from.height * (to.width * to.height)) + Skew(from, to) * Skew(from, to)
  {
    var a, b := to.width * from.height, to.height * from.width;
    assert a * b == from.width * from.height * (to.width * to.height);
    assert (a + b) * (a + b) == 4 * (a * b) + (a - b) * (a - b);
  }

  lemma Growth(radius: nat, up: nat, n: nat, half: nat, half': nat)
    requires half > 0 && up * (2 * half) >= radius * n - half
    requires (radius * n - half) * n >= 4 * (radius * (half * half')) + 2 * (half * half')
    ensures (radius + 1) * (2 * half') <= up * n + half'
  {
    var gain := up * n + half' - (radius + 1) * (2 * half');
    GainTimes(radius, up, n, half, half');
    Ordered(radius * n - half, up * (2 * half), n);
    NotNegative(gain, 2 * half);
  }

  lemma NotNegative(a: int, d: nat)
    requires d > 0 && a * d >= 0
    ensures a >= 0
  {
  }

  lemma GainTimes(radius: nat, up: nat, n: nat, half: nat, half': nat)
    ensures (up * n + half' - (radius + 1) * (2 * half')) * (2 * half)
         == up * (2 * half) * n - 4 * (radius * (half * half')) - 2 * (half * half')
  {
  }

  lemma Grown(radius: nat, n: nat, half: nat, area: nat, e: nat)
    requires n * n == 4 * area + e && radius * e >= half * n + 2 * area
    ensures (radius * n - half) * n >= 4 * (radius * area) + 2 * area
  {
    Distribute(radius * n, half, n);
    Associate(radius, n, n);
    Distribute(4 * area, e, radius);
    Associate(4, area, radius);
  }

  ghost predicate RadiiReturn(from: Resolution, to: Resolution)
    requires from.NonZero() && to.NonZero()
  {
    forall radius: nat :: RoundedRadius(RoundedRadius(radius, from, to), to, from) == radius
  }

  // Before clamping, every radius returns exactly if the axes scale alike and do not shrink.
  lemma RadiiReturnIff(from: Resolution, to: Resolution)
    requires from.NonZero() && to.NonZero()
    ensures RadiiReturn(from, to) <==> SameAspect(from, to) && from.width <= to.width
  {
    hide RoundedRadius, Rounded, SameAspect;
    if !SameAspect(from, to) {
      SkewedRadiusGrows(from, to);
    } else {
      AlikeBothWays(from, to);
      if from.width <= to.width {
        forall radius: nat
          ensures Rounded(Rounded(radius, from.width, to.width), to.width, from.width) == radius
        {
          RoundedUpThenDown(radius, from.width, to.width);
        }
      } else if RadiiReturn(from, to) {
        ReturningGrows(from.width, from.width, to.width);
        FullLength(from.width, to.width);
      }
    }
  }

  lemma SkewedRadiusGrows(from: Resolution, to: Resolution)
    requires from.NonZero() && to.NonZero() && !SameAspect(from, to)
    ensures exists radius: nat :: RoundedRadius(RoundedRadius(radius, from, to), to, from) != radius
  {
    hide RoundedRadius, SameAspect, Large;
    var radius := from.width * from.height * (Sides(from, to) + 2 * (to.width * to.height));
    SkewedIsLarge(radius, from, to);
    RadiusGrows(radius, from, to);
  }

  lemma FullLength(from: nat, to: nat)
    requires from > 0
    ensures Rounded(from, from, to) == to
  {
    DivIs(from * to + from / 2, from, to);
  }

  lemma AlikeBothWays(from: Resolution, to: Resolution)
    requires from.NonZero() && to.NonZero() && SameAspect(from, to)
    ensures forall radius: nat :: RoundedRadius(RoundedRadius(radius, from, to), to, from)
                               == Rounded(Rounded(radius, from.width, to.width), to.width, from.width)
  {
    assert SameAspect(to, from);
    hide RoundedRadius, Rounded, SameAspect;
    forall radius: nat
      ensures RoundedRadius(RoundedRadius(radius, from, to), to, from)
           == Rounded(Rounded(radius, from.width, to.width), to.width, from.width)
    {
      RadiusLikeAxis(radius, from, to);
      RadiusLikeAxis(RoundedRadius(radius, from, to), to, from);
    }
  }

  lemma SkewedIsLarge(radius: nat, from: Resolution, to: Resolution)
    requires !SameAspect(from, to)
    requires radius == from.width * from.height * (Sides(from, to) + 2 * (to.width * to.height))
    ensures Large(radius, from, to)
  {
  }

  // A scale that loses nothing is strictly increasing, so it does not shrink.
  lemma {:induction false} ReturningGrows(radius: nat, from: nat, to: nat)
    requires from > 0 && to > 0
    requires forall radius: nat :: Rounded(Rounded(radius, from, to), to, from) == radius
    ensures Rounded(radius, from, to) >= radius
  {
    hide Rounded;
    if radius > 0 {
      ReturningGrows(radius - 1, from, to);
      RoundedMonotone(radius - 1, radius, from, to);
      assert Rounded(Rounded(radius - 1, from, to), to, from) != Rounded(Rounded(radius, from, to), to, from);
    }
  }

  lemma RoundedMonotone(low: nat, high: nat, from: nat, to: nat)
    requires from > 0 && low <= high
    ensures Rounded(low, from, to) <= Rounded(high, from, to)
  {
    Ordered(low, high, to);
    DivMonotone(low * to + from / 2, high * to + from / 2, from);
  }

  // Where the axes scale alike, a radius returns exactly if some radius scales to it the other way. So
  // enlarging all return, and shrinking those that are themselves enlarged.
  lemma AlikeRadiusReturnsIff(radius: nat, from: Resolution, to: Resolution)
    requires from.NonZero() && to.NonZero() && SameAspect(from, to)
    ensures RoundedRadius(RoundedRadius(radius, from, to), to, from) == radius <==>
              exists other: nat :: RoundedRadius(other, to, from) == radius
  {
    if other: nat :| RoundedRadius(other, to, from) == radius {
      hide RoundedRadius, Rounded, SameAspect;
      ThereAndBackAgain(other, to, from);
    }
  }

  // Scaling a third time undoes the second.
  lemma ThereAndBackAgain(radius: nat, from: Resolution, to: Resolution)
    requires from.NonZero() && to.NonZero() && SameAspect(from, to)
    ensures var there := RoundedRadius(radius, from, to);
            RoundedRadius(RoundedRadius(there, to, from), from, to) == there
  {
    assert SameAspect(to, from);
    hide RoundedRadius, Rounded, SameAspect;
    AlikeBothWays(from, to);
    AlikeBothWays(to, from);
    RadiusLikeAxis(radius, from, to);
    if from.width <= to.width {
      RoundedUpThenDown(radius, from.width, to.width);
    } else {
      RoundedUpThenDown(Rounded(radius, from.width, to.width), to.width, from.width);
    }
  }

  lemma RoundedIsLarger(value: nat, from: nat, to: nat)
    requires 0 < from <= to
    ensures Rounded(value, from, to) >= value
  {
    Ordered(from, to, value);
    DivAtLeast(value * to + from / 2, from, value);
  }

  // One pixel fits 32 bits on any axis.
  lemma OnePixel(from: U32, to: U32)
    requires from > 0
    ensures Rounded(1, from, to) <= U32_MAX
  {
  }

  lemma ClampedReturns(radius: U32, other: U32, from: U32, to: U32)
    requires 0 < radius < U32_MAX && other > 0 && from > 0 && to > 0
    requires ClampRadius(Rounded(other, to, from)) == radius
    ensures ClampRadius(Rounded(ClampRadius(Rounded(radius, from, to)), to, from)) == radius
  {
    hide Rounded;
    var there := Rounded(radius, from, to);
    if from <= to {
      RoundedUpThenDown(radius, from, to);
      RoundedIsLarger(radius, from, to);
      OnePixel(from, to);
      if there > U32_MAX {
        RoundedMonotone(U32_MAX, there, to, from);
        RoundedMonotone(other, U32_MAX, to, from);
      }
    } else {
      RoundedIsLarger(other, to, from);
      RoundedUpThenDown(other, to, from);
    }
  }

  // The same of the 32-bit radii, clamps included.
  lemma ClampedRadiusReturnsIff(radius: U32, from: Resolution, to: Resolution)
    requires 0 < radius < U32_MAX && from.NonZero() && to.NonZero() && SameAspect(from, to)
    ensures ScaleRadius(ScaleRadius(radius, from, to), to, from) == radius <==>
              exists other: U32 :: other > 0 && ScaleRadius(other, to, from) == radius
  {
    assert SameAspect(to, from);
    hide RoundedRadius, Rounded, SameAspect;
    var there := ScaleRadius(radius, from, to);
    RadiusLikeAxis(radius, from, to);
    RadiusLikeAxis(there, to, from);
    if other: U32 :| other > 0 && ScaleRadius(other, to, from) == radius {
      RadiusLikeAxis(other, to, from);
      ClampedReturns(radius, other, from.width, to.width);
    }
    assert there > 0;
  }

  // The same with the clamps of 32 bits: a large radius comes back larger, or clamped.
  lemma ClampedRadiusGrows(radius: U32, from: Resolution, to: Resolution)
    requires from.NonZero() && to.NonZero() && Large(radius, from, to)
    requires 0 < radius && RoundedRadius(radius, from, to) <= U32_MAX
    ensures var back := ScaleRadius(ScaleRadius(radius, from, to), to, from);
            back > radius || back == U32_MAX
  {
    hide RoundedRadius;
    RadiusGrows(radius, from, to);
    NothingStaysNothing(to, from);
  }

  lemma NothingStaysNothing(from: Resolution, to: Resolution)
    requires from.NonZero()
    ensures RoundedRadius(0, from, to) == 0
  {
  }

  // Below that radius rounding may hide the difference. On axes that disagree by a hundredth 1 and 50
  // come back; on axes that disagree by a factor of two 100 comes back as 113.
  lemma RadiusNeedNotReturn()
    ensures var square, tall := Resolution(100, 100), Resolution(100, 101);
            && ScaleRadius(ScaleRadius(1, square, tall), tall, square) == 1
            && ScaleRadius(ScaleRadius(50, square, tall), tall, square) == 50
    ensures var square, taller := Resolution(100, 100), Resolution(100, 200);
            ScaleRadius(ScaleRadius(100, square, taller), taller, square) == 113
  {
    hide ScaleRadius, RoundedRadius;
    ThereAndBack(1, Resolution(100, 100), Resolution(100, 101), 1, 1);
    ThereAndBack(50, Resolution(100, 100), Resolution(100, 101), 50, 50);
    ThereAndBack(100, Resolution(100, 100), Resolution(100, 200), 150, 113);
  }

  lemma ThereAndBack(radius: U32, from: Resolution, to: Resolution, up: U32, back: U32)
    requires from.NonZero() && to.NonZero() && radius > 0 && up > 0 && back > 0
    requires RoundsTo(radius, from, to, up) && RoundsTo(up, to, from, back)
    ensures ScaleRadius(ScaleRadius(radius, from, to), to, from) == back
  {
    hide RoundedRadius;
    RoundedTo(radius, from, to, up);
    RoundedTo(up, to, from, back);
  }

  predicate RoundsTo(radius: nat, from: Resolution, to: Resolution, rounded: nat) {
    var area := from.width * from.height;
    0 <= radius * Sides(from, to) + area - rounded * (2 * area) < 2 * area
  }

  lemma RoundedTo(radius: nat, from: Resolution, to: Resolution, rounded: nat)
    requires from.NonZero() && RoundsTo(radius, from, to, rounded)
    ensures RoundedRadius(radius, from, to) == rounded
  {
    var area := from.width * from.height;
    DivIs(radius * Sides(from, to) + area, 2 * area, rounded);
  }

  function ScalePoint(p: Point, from: Resolution, to: Resolution): Point {
    Point(ScaleAxis(p.x, from.width, to.width), ScaleAxis(p.y, from.height, to.height))
  }

  function ScaleAction(action: BindingAction, from: Resolution, to: Resolution): BindingAction {
    match action
    case Tap(point) => Tap(ScalePoint(point, from, to))
    case Swipe(start, end, durationMs) => Swipe(ScalePoint(start, from, to), ScalePoint(end, from, to), durationMs)
    case VirtualJoystick(center, radius, tickMs, swipeDurationMs) =>
      VirtualJoystick(ScalePoint(center, from, to), ScaleRadius(radius, from, to), tickMs, swipeDurationMs)
    case MouseAim(_) => action
    case Macro(_) => action
  }

  // Points scale axis by axis, radii on their own, and times not at all.
  lemma OnlyPlacesScale(action: BindingAction, from: Resolution, to: Resolution)
    ensures var scaled := ScaleAction(action, from, to);
            match action
            case Tap(point) =>
              scaled.Tap? && scaled.point.x == ScaleAxis(point.x, from.width, to.width)
                  && scaled.point.y == ScaleAxis(point.y, from.height, to.height)
            case Swipe(start, end, durationMs) =>
              && scaled.Swipe? && scaled.durationMs == durationMs
              && scaled.start.x == ScaleAxis(start.x, from.width, to.width)
              && scaled.start.y == ScaleAxis(start.y, from.height, to.height)
              && scaled.end.x == ScaleAxis(end.x, from.width, to.width)
              && scaled.end.y == ScaleAxis(end.y, from.height, to.height)
            case VirtualJoystick(center, radius, tickMs, swipeDurationMs) =>
              && scaled.VirtualJoystick? && scaled.tickMs == tickMs && scaled.swipeDurationMs == swipeDurationMs
              && scaled.center.x == ScaleAxis(center.x, from.width, to.width)
              && scaled.center.y == ScaleAxis(center.y, from.height, to.height)
              && scaled.radius == ScaleRadius(radius, from, to)
            case _ => scaled == action
  {
  }

  function ScaledBindings(bindings: seq<Binding>, from: Resolution, to: Resolution): (r: seq<Binding>)
    ensures |r| == |bindings|
  {
    seq(|bindings|, i requires 0 <= i < |bindings| => bindings[i].(action := ScaleAction(bindings[i].action, from, to)))
  }

  // Clone, then rewrite the bindings one after the other.
  method ScaleProfile(profile: Profile, resolution: Resolution) returns (scaled: Profile)
    ensures scaled == profile.(resolution := resolution,
                               bindings := ScaledBindings(profile.bindings, profile.resolution, resolution))
  {
    scaled := profile.(resolution := resolution);
    var i := 0;
    while i < |scaled.bindings|
      invariant 0 <= i <= |scaled.bindings| == |profile.bindings|
      invariant scaled == profile.(resolution := resolution, bindings := scaled.bindings)
      invariant forall j | 0 <= j < i ::
                  scaled.bindings[j] == ScaledBindings(profile.bindings, profile.resolution, resolution)[j]
      invariant forall j | i <= j < |profile.bindings| :: scaled.bindings[j] == profile.bindings[j]
    {
      var binding := scaled.bindings[i];
      binding := binding.(action := ScaleAction(binding.action, profile.resolution, resolution));
      scaled := scaled.(bindings := scaled.bindings[i := binding]);
      i := i + 1;
    }
  }

  // ---------------------------------------------------------------------------------------
  // Validation

  function Blank(s: string, trim: string -> string): bool { trim(s) == "" }

  predicate InputIsEmpty(input: BindingInput, trim: string -> string) {
    match input
    case Key(key) => Blank(key, trim)
    case KeyCluster(up, left, down, right) => Blank(up, trim) || Blank(left, trim) || Blank(down, trim)
        || Blank(right, trim)
    case MouseButton(button) => Blank(button, trim)
  }

  function PointErrors(p: Point, name: string, resolution: Resolution): seq<ValidationError> {
    if resolution.Contains(p) then [] else [PointOutOfBounds(name, p, resolution)]
  }

  function ActionErrors(action: BindingAction, name: string, resolution: Resolution): seq<ValidationError> {
    match action
    case Tap(point) => PointErrors(point, name, resolution)
    case Swipe(start, end, durationMs) =>
      PointErrors(start, name, resolution) + PointErrors(end, name, resolution)
      + (if durationMs == 0 then [ZeroSwipeDuration(name)] else [])
    case VirtualJoystick(center, radius, tickMs, swipeDurationMs) =>
      PointErrors(center, name, resolution)
      + (if radius == 0 then [ZeroJoystickRadius(name)] else [])
      + (if tickMs == 0 then [ZeroJoystickTick(name)] else [])
      + (if swipeDurationMs == 0 then [ZeroJoystickSwipeDuration(name)] else [])
    case MouseAim(_) => [UnsupportedAction(name)]
    case Macro(_) => [UnsupportedAction(name)]
  }

  function NamesBefore(bindings: seq<Binding>, n: nat, trim: string -> string): set<string>
    requires n <= |bindings|
  {
    set i: nat | i < n && !Blank(bindings[i].name, trim) :: trim(bindings[i].name)
  }

  function BindingErrors(bindings: seq<Binding>, i: nat, resolution: Resolution,
                         trim: string -> string): seq<ValidationError>
    requires i < |bindings|
  {
    var binding := bindings[i];
    (if Blank(binding.name, trim) then [EmptyBindingName]
     else if trim(binding.name) in NamesBefore(bindings, i, trim) then [DuplicateBindingName(binding.name)]
     else [])
    + (if InputIsEmpty(binding.input, trim) then [EmptyInputValue(binding.name)] else [])
    + ActionErrors(binding.action, binding.name, resolution)
  }

  function ErrorsUpTo(bindings: seq<Binding>, n: nat, resolution: Resolution,
                      trim: string -> string): seq<ValidationError>
    requires n <= |bindings|
  {
    if n == 0 then []
    else ErrorsUpTo(bindings, n - 1, resolution, trim) + BindingErrors(bindings, n - 1, resolution, trim)
  }

  function HeadErrors(profile: Profile, trim: string -> string): seq<ValidationError> {
    (if Blank(profile.name, trim) then [EmptyProfileName] else [])
    + (if Blank(profile.packageName, trim) then [EmptyPackageName] else [])
    + (if profile.resolution.NonZero() then [] else [InvalidResolution(profile.resolution)])
  }

  // When a profile is told off for what: one line per complaint.
  ghost predicate Deserves(profile: Profile, error: ValidationError, trim: string -> string) {
    || (error.EmptyProfileName? && trim(profile.name) == "")
    || (error.EmptyPackageName? && trim(profile.packageName) == "")
    || (error == InvalidResolution(profile.resolution)
        && (profile.resolution.width == 0 || profile.resolution.height == 0))
    || exists i :: 0 <= i < |profile.bindings| && Earns(profile.bindings, i, profile.resolution, trim, error)
  }

  ghost predicate Earns(bindings: seq<Binding>, i: int, resolution: Resolution, trim: string -> string,
                        error: ValidationError)
    requires 0 <= i < |bindings|
  {
    var binding := bindings[i];
    match error
    case EmptyBindingName => trim(binding.name) == ""
    case DuplicateBindingName(name) =>
      name == binding.name && trim(name) != "" && exists j :: 0 <= j < i && trim(bindings[j].name) == trim(name)
    case EmptyInputValue(name) => name == binding.name && HasBlank(binding.input, trim)
    case PointOutOfBounds(name, p, limits) =>
      name == binding.name && limits == resolution && Touches(binding.action, p)
          && (p.x >= resolution.width || p.y >= resolution.height)
    case ZeroSwipeDuration(name) => name == binding.name && binding.action.Swipe? && binding.action.durationMs == 0
    case ZeroJoystickRadius(name) =>
      name == binding.name && binding.action.VirtualJoystick? && binding.action.radius == 0
    case ZeroJoystickTick(name) => name == binding.name && binding.action.VirtualJoystick? && binding.action.tickMs == 0
    case ZeroJoystickSwipeDuration(name) =>
      name == binding.name && binding.action.VirtualJoystick? && binding.action.swipeDurationMs == 0
    case UnsupportedAction(name) => name == binding.name && (binding.action.MouseAim? || binding.action.Macro?)
    case _ => false
  }

  ghost predicate HasBlank(input: BindingInput, trim: string -> string) {
    match input
    case Key(key) => trim(key) == ""
    case KeyCluster(up, left, down, right) => "" in [trim(up), trim(left), trim(down), trim(right)]
    case MouseButton(button) => trim(button) == ""
  }

  ghost predicate Touches(action: BindingAction, p: Point) {
    match action
    case Tap(point) => p == point
    case Swipe(start, end, _) => p == start || p == end
    case VirtualJoystick(center, _, _, _) => p == center
    case _ => false
  }

  lemma ActionErrorIff(action: BindingAction, name: string, resolution: Resolution, error: ValidationError)
    ensures error in ActionErrors(action, name, resolution) <==>
              match error
              case PointOutOfBounds(n, p, limits) =>
                n == name && limits == resolution && Touches(action, p)
                    && (p.x >= resolution.width || p.y >= resolution.height)
              case ZeroSwipeDuration(n) => n == name && action.Swipe? && action.durationMs == 0
              case ZeroJoystickRadius(n) => n == name && action.VirtualJoystick? && action.radius == 0
              case ZeroJoystickTick(n) => n == name && action.VirtualJoystick? && action.tickMs == 0
              case ZeroJoystickSwipeDuration(n) => n == name && action.VirtualJoystick? && action.swipeDurationMs == 0
              case UnsupportedAction(n) => n == name && (action.MouseAim? || action.Macro?)
              case _ => false
  {
  }

  lemma BindingErrorIff(bindings: seq<Binding>, i: nat, resolution: Resolution, trim: string -> string,
                        error: ValidationError)
    requires i < |bindings|
    ensures error in BindingErrors(bindings, i, resolution, trim) <==> Earns(bindings, i, resolution, trim, error)
  {
    ActionErrorIff(bindings[i].action, bindings[i].name, resolution, error);
    hide ActionErrors, Touches;
  }

  lemma {:induction false} ErrorsUpToIff(bindings: seq<Binding>, n: nat, resolution: Resolution,
                                         trim: string -> string, error: ValidationError)
    requires n <= |bindings|
    ensures error in ErrorsUpTo(bindings, n, resolution, trim) <==>
              exists i :: 0 <= i < n && Earns(bindings, i, resolution, trim, error)
  {
    hide Earns, BindingErrors;
    if n > 0 {
      ErrorsUpToIff(bindings, n - 1, resolution, trim, error);
      BindingErrorIff(bindings, n - 1, resolution, trim, error);
    }
  }

  lemma ReportedIffDeserved(profile: Profile, trim: string -> string, error: ValidationError)
    ensures error in HeadErrors(profile, trim) + ErrorsUpTo(profile.bindings, |profile.bindings|, profile.resolution,
                                                            trim)
            <==> Deserves(profile, error, trim)
  {
    hide Earns, ErrorsUpTo;
    ErrorsUpToIff(profile.bindings, |profile.bindings|, profile.resolution, trim, error);
  }

  // What validation is for, in one sentence per rule.
  ghost predicate IsValid(profile: Profile, trim: string -> string) {
    && !Blank(profile.name, trim) && !Blank(profile.packageName, trim)
    && profile.resolution.NonZero()
    && AllValid(profile.bindings, |profile.bindings|, profile.resolution, trim)
    && DistinctNames(profile.bindings, |profile.bindings|, trim)
  }

  ghost predicate IsValidBinding(binding: Binding, resolution: Resolution, trim: string -> string) {
    && !Blank(binding.name, trim)
    && !InputIsEmpty(binding.input, trim)
    && match binding.action
       case Tap(point) => resolution.Contains(point)
       case Swipe(start, end, durationMs) => resolution.Contains(start) && resolution.Contains(end) && durationMs > 0
       case VirtualJoystick(center, radius, tickMs, swipeDurationMs) =>
         resolution.Contains(center) && radius > 0 && tickMs > 0 && swipeDurationMs > 0
       case _ => false
  }

  // validate: collects every error in order; there are none exactly for a valid profile.
  method Validate(profile: Profile, trim: string -> string) returns (errors: seq<ValidationError>)
    ensures errors == HeadErrors(profile, trim)
            + ErrorsUpTo(profile.bindings, |profile.bindings|, profile.resolution, trim)
    ensures errors == [] <==> IsValid(profile, trim)
    ensures forall error :: error in errors <==> Deserves(profile, error, trim)
  {
    hide BindingErrors, HeadErrors, NamesBefore, Deserves;
    errors := ValidateHead(profile, trim);
    var names: set<string> := {};
    NoNamesYet(profile.bindings, trim);
    var i := 0;
    while i < |profile.bindings|
      invariant 0 <= i <= |profile.bindings|
      invariant names == NamesBefore(profile.bindings, i, trim)
      invariant errors == HeadErrors(profile, trim) + ErrorsUpTo(profile.bindings, i, profile.resolution, trim)
    {
      ErrorsStep(HeadErrors(profile, trim), profile.bindings, i, profile.resolution, trim);
      var found;
      names, found := ValidateBinding(profile.bindings, i, profile.resolution, names, trim);
      errors := errors + found;
      i := i + 1;
    }
    ErrorFreeMeansValid(profile, trim, |profile.bindings|);
    forall error ensures error in errors <==> Deserves(profile, error, trim) {
      ReportedIffDeserved(profile, trim, error);
    }
  }

  method ValidateHead(profile: Profile, trim: string -> string) returns (errors: seq<ValidationError>)
    ensures errors == HeadErrors(profile, trim)
    ensures errors == [] <==>
              !Blank(profile.name, trim) && !Blank(profile.packageName, trim) && profile.resolution.NonZero()
  {
    errors := [];
    if Blank(profile.name, trim) {
      errors := errors + [EmptyProfileName];
    }
    if Blank(profile.packageName, trim) {
      errors := errors + [EmptyPackageName];
    }
    if profile.resolution.width == 0 || profile.resolution.height == 0 {
      errors := errors + [InvalidResolution(profile.resolution)];
    }
  }

  lemma NoNamesYet(bindings: seq<Binding>, trim: string -> string)
    ensures NamesBefore(bindings, 0, trim) == {}
  {
  }

  lemma ErrorsStep(head: seq<ValidationError>, bindings: seq<Binding>, i: nat, resolution: Resolution,
                   trim: string -> string)
    requires i < |bindings|
    ensures head + ErrorsUpTo(bindings, i + 1, resolution, trim)
         == head + ErrorsUpTo(bindings, i, resolution, trim) + BindingErrors(bindings, i, resolution, trim)
  {
  }

  lemma NamesStep(bindings: seq<Binding>, i: nat, trim: string -> string)
    requires i < |bindings|
    ensures NamesBefore(bindings, i + 1, trim)
         == NamesBefore(bindings, i, trim) + if Blank(bindings[i].name, trim) then {} else {trim(bindings[i].name)}
  {
  }

  method ValidateBinding(bindings: seq<Binding>, i: nat, resolution: Resolution, seen: set<string>,
                         trim: string -> string)
    returns (names: set<string>, found: seq<ValidationError>)
    requires i < |bindings| && seen == NamesBefore(bindings, i, trim)
    ensures names == NamesBefore(bindings, i + 1, trim)
    ensures found == BindingErrors(bindings, i, resolution, trim)
  {
    hide NamesBefore, Blank, InputIsEmpty, ActionErrors;
    NamesStep(bindings, i, trim);
    var binding := bindings[i];
    names, found := seen, [];
    if Blank(binding.name, trim) {
      found := found + [EmptyBindingName];
    } else if trim(binding.name) in names {
      found := found + [DuplicateBindingName(binding.name)];
    } else {
      names := names + {trim(binding.name)};
    }
    if InputIsEmpty(binding.input, trim) {
      found := found + [EmptyInputValue(binding.name)];
    }
    found := found + ActionErrors(binding.action, binding.name, resolution);
  }

  lemma BindingErrorFree(bindings: seq<Binding>, i: nat, resolution: Resolution, trim: string -> string)
    requires i < |bindings|
    ensures BindingErrors(bindings, i, resolution, trim) == [] <==>
              && IsValidBinding(bindings[i], resolution, trim)
              && trim(bindings[i].name) !in NamesBefore(bindings, i, trim)
  {
  }

  ghost predicate DistinctNames(bindings: seq<Binding>, n: nat, trim: string -> string)
    requires n <= |bindings|
  {
    forall i, j | 0 <= i < j < n :: trim(bindings[i].name) != trim(bindings[j].name)
  }

  ghost predicate AllValid(bindings: seq<Binding>, n: nat, resolution: Resolution, trim: string -> string)
    requires n <= |bindings|
  {
    forall i | 0 <= i < n :: IsValidBinding(bindings[i], resolution, trim)
  }

  lemma DistinctNamesStep(bindings: seq<Binding>, n: nat, trim: string -> string)
    requires n < |bindings|
    requires forall i | 0 <= i <= n :: !Blank(bindings[i].name, trim)
    ensures DistinctNames(bindings, n + 1, trim) <==>
              DistinctNames(bindings, n, trim) && trim(bindings[n].name) !in NamesBefore(bindings, n, trim)
  {
  }

  lemma {:induction false} ErrorFreeMeansValid(profile: Profile, trim: string -> string, n: nat)
    requires n <= |profile.bindings|
    ensures ErrorsUpTo(profile.bindings, n, profile.resolution, trim) == [] <==>
              AllValid(profile.bindings, n, profile.resolution, trim) && DistinctNames(profile.bindings, n, trim)
  {
    hide BindingErrors, NamesBefore, DistinctNames;
    if n > 0 {
      ErrorFreeMeansValid(profile, trim, n - 1);
      BindingErrorFree(profile.bindings, n - 1, profile.resolution, trim);
      if AllValid(profile.bindings, n, profile.resolution, trim) {
        DistinctNamesStep(profile.bindings, n - 1, trim);
      }
    } else {
      NoBindings(profile.bindings, trim);
    }
  }

  lemma NoBindings(bindings: seq<Binding>, trim: string -> string)
    ensures DistinctNames(bindings, 0, trim)
  {
  }

  // A valid profile scaled to any non-zero resolution is valid again, so checking once more before
  // writing it cannot fail.
  lemma ScalingPreservesValidity(profile: Profile, resolution: Resolution, trim: string -> string)
    requires IsValid(profile, trim) && resolution.NonZero()
    ensures IsValid(profile.(resolution := resolution,
                             bindings := ScaledBindings(profile.bindings, profile.resolution, resolution)), trim)
  {
  }

  // What is on the screen comes back from a larger resolution exactly, radii aside.
  predicate SamePlaces(one: BindingAction, other: BindingAction) {
    match one
    case VirtualJoystick(center, _, tickMs, swipeDurationMs) =>
      other.VirtualJoystick? && other.center == center && other.tickMs == tickMs
          && other.swipeDurationMs == swipeDurationMs
    case _ => one == other
  }

  lemma ProfileUpThenDown(profile: Profile, larger: Resolution, trim: string -> string, i: nat)
    requires IsValid(profile, trim) && i < |profile.bindings|
    requires profile.resolution.width <= larger.width && profile.resolution.height <= larger.height
    ensures var up := ScaledBindings(profile.bindings, profile.resolution, larger);
            var back := ScaledBindings(up, larger, profile.resolution);
            back[i] == profile.bindings[i].(action := back[i].action)
                && SamePlaces(profile.bindings[i].action, back[i].action)
  {
    assert IsValidBinding(profile.bindings[i], profile.resolution, trim);
    forall p | profile.resolution.Contains(p)
      ensures ScalePoint(ScalePoint(p, profile.resolution, larger), larger, profile.resolution) == p
    {
      UpThenDown(p.x, profile.resolution.width, larger.width);
      UpThenDown(p.y, profile.resolution.height, larger.height);
    }
  }

  // Scaling a valid profile to its own resolution changes nothing at all, radii included.
  lemma SameResolutionIsIdentity(profile: Profile, trim: string -> string)
    requires IsValid(profile, trim)
    ensures ScaledBindings(profile.bindings, profile.resolution, profile.resolution) == profile.bindings
  {
    var resolution := profile.resolution;
    forall i | 0 <= i < |profile.bindings|
      ensures ScaleAction(profile.bindings[i].action, resolution, resolution) == profile.bindings[i].action
    {
      assert IsValidBinding(profile.bindings[i], resolution, trim);
      SameAction(profile.bindings[i].action, resolution);
    }
  }

  lemma SamePoint(p: Point, resolution: Resolution)
    requires resolution.Contains(p)
    ensures ScalePoint(p, resolution, resolution) == p
  {
    SameScale(p.x, resolution.width);
    SameScale(p.y, resolution.height);
  }

  lemma SameAction(action: BindingAction, resolution: Resolution)
    requires resolution.NonZero()
    requires match action
             case Tap(point) => resolution.Contains(point)
             case Swipe(start, end, _) => resolution.Contains(start) && resolution.Contains(end)
             case VirtualJoystick(center, radius, _, _) => resolution.Contains(center) && radius > 0
             case _ => false
    ensures ScaleAction(action, resolution, resolution) == action
  {
    match action
    case Tap(point) => SamePoint(point, resolution);
    case Swipe(start, end, _) =>
      SamePoint(start, resolution);
      SamePoint(end, resolution);
    case VirtualJoystick(center, radius, _, _) =>
      SamePoint(center, resolution);
      SameRadius(radius, resolution);
  }
}
