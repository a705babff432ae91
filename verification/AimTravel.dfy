// How far a run of mouse motion takes the aim contact: the total motion times the sensitivity, up to less
// than a pixel, as long as nothing stops it (crates/wroid-runtime/src/mouse_aim.rs).

module AimTravel {
  import opened Arithmetic
  import opened Wrappers
  import opened Touch
  import opened AimMotion
  import opened AimControl

  datatype Motion = Motion(dx: int, dy: int, due: bool)

  // Controllers and contacts after each motion of a run.
  ghost predicate IsRun(aims: seq<AimController>, shown: seq<Contacts>, motions: seq<Motion>) {
    && |aims| == |shown| == |motions| + 1
    && forall k | 0 <= k < |motions| :: Leads(aims[k], motions[k], shown[k], aims[k + 1], shown[k + 1])
  }

  ghost predicate Leads(aim: AimController, motion: Motion, before: Contacts, after: AimController,
                        contacts: Contacts) {
    MovedBy(aim, motion.dx, motion.dy, motion.due, before, after, contacts)
  }

  // The contact is down, and strictly inside its region.
  ghost predicate Free(aim: AimController, contact: ContactId, contacts: Contacts) {
    && aim.active == Some(contact) && aim.next != contact && aim.pending.None? && contact in contacts
    && aim.spec.region.left < contacts[contact].x < aim.spec.region.right
    && aim.spec.region.top < contacts[contact].y < aim.spec.region.bottom
  }

  // Whatever ends strictly inside was neither clamped nor wrapped around.
  lemma UnclampedAxis(value: U32, delta: int, low: U32, high: U32)
    requires low <= high && low < ClampAxis(OffsetAxis(value, delta), low, high) < high
    requires I64_MIN <= delta <= I64_MAX
    ensures ClampAxis(OffsetAxis(value, delta), low, high) == value + delta
  {
  }

  // The ratio in force: that of the plain sensitivity, or in sights its product with the multiplier.
  ghost predicate RatioIs(aim: AimController, numerator: int, denominator: int) {
    var plain, sights := aim.spec.sensitivity, aim.spec.multiplier;
    && numerator <= I64_MAX && denominator <= I64_MAX
    && if aim.ads && sights.Some? then
         && numerator == plain.numerator * sights.value.numerator
         && denominator == plain.denominator * sights.value.denominator
       else numerator == plain.numerator && denominator == plain.denominator
  }

  ghost predicate FitsBoth(aim: AimController, motion: Motion, numerator: int) {
    && AimMotion.Fits(aim.accumulator.carryX, motion.dx, numerator)
    && AimMotion.Fits(aim.accumulator.carryY, motion.dy, numerator)
  }

  // The way from one place to another, with what is carried, accounts for so much motion.
  ghost predicate Accounts(from: int, to: int, carry: int, carried: int, motion: int, numerator: int,
                           denominator: int) {
    (to - from) * denominator + carried == motion * numerator + carry
  }

  lemma AccountsMore(a: int, b: int, c: int, carry: int, between: int, carried: int, motion: int, more: int,
                     numerator: int, denominator: int)
    requires Accounts(a, b, carry, between, motion, numerator, denominator)
    requires Accounts(b, c, between, carried, more, numerator, denominator)
    ensures Accounts(a, c, carry, carried, motion + more, numerator, denominator)
  {
    Distribute(b - a, c - b, denominator);
    Distribute(motion, more, numerator);
  }

  // On both axes.
  ghost predicate Travels(aim: AimController, before: Contacts, after: AimController, contacts: Contacts,
                          contact: ContactId, dx: int, dy: int, numerator: int, denominator: int)
    requires contact in before && contact in contacts
  {
    && after.Exact() && after.spec == aim.spec && after.ads == aim.ads
    && Accounts(before[contact].x, contacts[contact].x, aim.accumulator.carryX, after.accumulator.carryX, dx, numerator,
                denominator)
    && Accounts(before[contact].y, contacts[contact].y, aim.accumulator.carryY, after.accumulator.carryY, dy, numerator,
                denominator)
  }

  // One motion.
  lemma FreeStep(aim: AimController, motion: Motion, before: Contacts, after: AimController, contacts: Contacts,
                 contact: ContactId, numerator: int, denominator: int)
    requires Leads(aim, motion, before, after, contacts) && aim.Exact() && RatioIs(aim, numerator, denominator)
    requires Free(aim, contact, before) && Free(after, contact, contacts) && FitsBoth(aim, motion, numerator)
    ensures Travels(aim, before, after, contacts, contact, motion.dx, motion.dy, numerator, denominator)
  {
    hide AimMotion.Fits, InForce, PastThreshold, ClampAxis, OffsetAxis;
    if motion.dx == 0 == motion.dy {
      assert contacts == before && after == aim;
    } else {
      var scaled := aim.accumulator.Scaling(motion.dx, motion.dy, aim.Scale());
      ScalingAccounts(aim, motion.dx, motion.dy);
      ScaledInRange(aim, motion);
      UnclampedAxis(before[contact].x, scaled.x, aim.spec.region.left, aim.spec.region.right);
      UnclampedAxis(before[contact].y, scaled.y, aim.spec.region.top, aim.spec.region.bottom);
    }
  }

  lemma ScaledInRange(aim: AimController, motion: Motion)
    requires aim.Exact()
    ensures var scaled := aim.accumulator.Scaling(motion.dx, motion.dy, aim.Scale());
            I64_MIN <= scaled.x <= I64_MAX && I64_MIN <= scaled.y <= I64_MAX
  {
    hide InForce, Dividend, TruncDiv, Saturate;
    var scale := aim.Scale();
    QuotientInRange(Dividend(aim.accumulator.carryX, motion.dx, scale.numerator), scale.denominator);
    QuotientInRange(Dividend(aim.accumulator.carryY, motion.dy, scale.numerator), scale.denominator);
    SaturatedInRange(aim.accumulator.carryX, motion.dx, scale.numerator);
    SaturatedInRange(aim.accumulator.carryY, motion.dy, scale.numerator);
  }

  lemma SaturatedInRange(carry: int, delta: int, numerator: int)
    ensures I64_MIN <= Dividend(carry, delta, numerator) <= I64_MAX
  {
  }

  lemma QuotientInRange(n: int, d: int)
    requires d > 0
    ensures I64_MIN <= n <= I64_MAX ==> I64_MIN <= TruncDiv(n, d) <= I64_MAX
  {
  }

  // Where a handover puts the contact: as far from the origin as the region lets the motion go.
  lemma LandingIs(aim: AimController, dx: int, dy: int)
    requires aim.spec.region.NonEmpty() && aim.spec.region.Contains(aim.spec.origin)
    requires I64_MIN <= dx && aim.spec.origin.x + dx <= I64_MAX && I64_MIN <= dy && aim.spec.origin.y + dy <= I64_MAX
    ensures var region, x, y := aim.spec.region, aim.spec.origin.x + dx, aim.spec.origin.y + dy;
            aim.Landing(dx, dy) == Point(if x < region.left then region.left else if x > region.right then region.right
                                         else x,
                                         if y < region.top then region.top else if y > region.bottom then region.bottom
                                         else y)
  {
    ClampedMove(aim.spec.region, aim.spec.origin, dx, dy);
  }

  // When there is a handover: past a circle around the origin.
  lemma TooFarIs(aim: AimController, config: Config, target: Point)
    requires config.Valid() && aim.spec.ValidFor(config) && aim.spec.thresholdMilli <= 1000
    requires aim.spec.region.Contains(target)
    ensures var region, origin := aim.spec.region, aim.spec.origin;
            var half := Shorter((region.right - region.left) / 2, (region.bottom - region.top) / 2);
            var radius, dx, dy := half * aim.spec.thresholdMilli / 1000, target.x - origin.x, target.y - origin.y;
            aim.TooFar(target) <==> dx * dx + dy * dy > radius * radius
  {
    ThresholdIsACircle(aim.spec.region, aim.spec.origin, aim.spec.thresholdMilli, target);
  }

  function TotalX(motions: seq<Motion>, n: nat): int
    requires n <= |motions|
  {
    if n == 0 then 0 else TotalX(motions, n - 1) + motions[n - 1].dx
  }

  function TotalY(motions: seq<Motion>, n: nat): int
    requires n <= |motions|
  {
    if n == 0 then 0 else TotalY(motions, n - 1) + motions[n - 1].dy
  }

  // Every run: where the contact is, with what is carried, accounts for all of the motion.
  lemma {:induction false} RunTravels(aims: seq<AimController>, shown: seq<Contacts>, motions: seq<Motion>, n: nat,
                                      contact: ContactId, numerator: int, denominator: int)
    requires IsRun(aims, shown, motions) && n <= |motions|
    requires aims[0].Exact() && RatioIs(aims[0], numerator, denominator)
    requires forall k | 0 <= k <= n :: Free(aims[k], contact, shown[k])
    requires forall k | 0 <= k < n :: FitsBoth(aims[k], motions[k], numerator)
    ensures contact in shown[0] && contact in shown[n]
    ensures Travels(aims[0], shown[0], aims[n], shown[n], contact, TotalX(motions, n), TotalY(motions, n), numerator,
                    denominator)
  {
    hide Leads, FitsBoth, AimController.Exact, Accounts;
    if n == 0 {
      TravelsNowhere(aims[0], shown[0], contact, numerator, denominator);
    } else {
      RunTravels(aims, shown, motions, n - 1, contact, numerator, denominator);
      assert Leads(aims[n - 1], motions[n - 1], shown[n - 1], aims[n], shown[n]);
      assert Free(aims[n - 1], contact, shown[n - 1]) && Free(aims[n], contact, shown[n]);
      FreeStep(aims[n - 1], motions[n - 1], shown[n - 1], aims[n], shown[n], contact, numerator, denominator);
      TravelsMore(aims[0], shown[0], aims[n - 1], shown[n - 1], aims[n], shown[n], contact, TotalX(motions, n - 1),
                  TotalY(motions, n - 1), motions[n - 1].dx, motions[n - 1].dy, numerator, denominator);
    }
  }

  lemma TravelsNowhere(aim: AimController, contacts: Contacts, contact: ContactId, numerator: int, denominator: int)
    requires contact in contacts && aim.Exact()
    ensures Travels(aim, contacts, aim, contacts, contact, 0, 0, numerator, denominator)
  {
  }

  lemma TravelsMore(a: AimController, shownA: Contacts, b: AimController, shownB: Contacts, c: AimController,
                    shownC: Contacts, contact: ContactId, dx: int, dy: int, moreX: int, moreY: int, numerator: int,
                    denominator: int)
    requires contact in shownA && contact in shownB && contact in shownC
    requires Travels(a, shownA, b, shownB, contact, dx, dy, numerator, denominator)
    requires Travels(b, shownB, c, shownC, contact, moreX, moreY, numerator, denominator)
    ensures Travels(a, shownA, c, shownC, contact, dx + moreX, dy + moreY, numerator, denominator)
  {
    hide Accounts;
    AccountsMore(shownA[contact].x, shownB[contact].x, shownC[contact].x, a.accumulator.carryX, b.accumulator.carryX,
                 c.accumulator.carryX, dx, moreX, numerator, denominator);
    AccountsMore(shownA[contact].y, shownB[contact].y, shownC[contact].y, a.accumulator.carryY, b.accumulator.carryY,
                 c.accumulator.carryY, dy, moreY, numerator, denominator);
  }

  // Ordinary motion outside sights always fits: then the contact has gone, from nothing carried, as far as
  // the total motion times the sensitivity, up to less than a pixel on either axis.
  lemma OrdinaryRunTravels(aims: seq<AimController>, shown: seq<Contacts>, motions: seq<Motion>, contact: ContactId)
    requires IsRun(aims, shown, motions) && aims[0].accumulator == NO_REMAINDER
    requires !aims[0].ads || aims[0].spec.multiplier.None?
    requires forall k | 0 <= k <= |motions| :: Free(aims[k], contact, shown[k])
    requires forall k | 0 <= k < |motions| :: Ordinary(motions[k])
    ensures contact in shown[0] && contact in shown[|motions|]
    ensures var n, plain, start, now := |motions|, aims[0].spec.sensitivity, shown[0][contact],
                shown[|motions|][contact];
            && Near(now.x - start.x, TotalX(motions, n), plain) && Near(now.y - start.y, TotalY(motions, n), plain)
  {
    hide Leads, FitsBoth;
    var plain := aims[0].spec.sensitivity;
    assert Free(aims[0], contact, shown[0]) && Free(aims[|motions|], contact, shown[|motions|]);
    AllFitUpTo(aims, shown, motions, |motions|);
    RunTravels(aims, shown, motions, |motions|, contact, plain.numerator, plain.denominator);
  }

  // Less than a pixel from the motion times the sensitivity.
  ghost predicate Near(travel: int, motion: int, plain: Sensitivity) {
    var numerator: int, denominator: int := plain.numerator, plain.denominator;
    -denominator < travel * denominator - motion * numerator < denominator
  }

  predicate Ordinary(motion: Motion) {
    -0x4000_0000 < motion.dx < 0x4000_0000 && -0x4000_0000 < motion.dy < 0x4000_0000
  }

  lemma {:induction false} AllFitUpTo(aims: seq<AimController>, shown: seq<Contacts>, motions: seq<Motion>, n: nat)
    requires IsRun(aims, shown, motions) && n <= |motions| && aims[0].Exact()
    requires !aims[0].ads || aims[0].spec.multiplier.None?
    requires forall k | 0 <= k < |motions| :: Ordinary(motions[k])
    ensures aims[n].Exact() && aims[n].spec == aims[0].spec && (!aims[n].ads || aims[n].spec.multiplier.None?)
    ensures forall k | 0 <= k < n :: FitsBoth(aims[k], motions[k], aims[0].spec.sensitivity.numerator)
  {
    if n > 0 {
      hide AimMotion.Fits;
      AllFitUpTo(aims, shown, motions, n - 1);
      var aim, motion := aims[n - 1], motions[n - 1];
      assert Leads(aim, motion, shown[n - 1], aims[n], shown[n]);
      OrdinaryMotionFits(motion.dx, Ratio(aim.spec.sensitivity.numerator, aim.spec.sensitivity.denominator));
      OrdinaryMotionFits(motion.dy, Ratio(aim.spec.sensitivity.numerator, aim.spec.sensitivity.denominator));
    }
  }
}
