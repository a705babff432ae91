// The bookkeeping of UnifiedRuntime on plain values: which control owns which contact, what a
// settled state is, and the order in which a reconcile pass gives up and takes ownership
// (crates/wroid-inject/src/game_session.rs).

module Ownership {
  import opened Wrappers
  import opened Touch
  import opened Injector
  import opened Controls
  import opened ContactDrivers
  import opened AimControl
  import opened Slots

  // ---------------------------------------------------------------------------------------
  // Who owns which contact.

  function ContactsOf(control: Control, point: Option<ContactId>): set<ContactId> {
    match control.action
    case Tap(_) => if point.Some? then {point.value} else {}
    case Hold(_) => if point.Some? then {point.value} else {}
    case Steer(joystick, _) => {joystick.contact}
    case Aim(aim) => {aim.contact, aim.alternate}
  }

  // The contact ids the constructor hands out collide with nothing.
  ghost predicate LaidOut(controls: seq<Control>, points: seq<Option<ContactId>>, cursor: ContactId) {
    && |points| == |controls|
    && (forall i | 0 <= i < |controls| :: controls[i].action.Tap? || controls[i].action.Hold? ==> points[i].Some?)
    && (forall i, j | 0 <= i < j < |controls| ::
          ContactsOf(controls[i], points[i]) !! ContactsOf(controls[j], points[j]))
    && (forall i | 0 <= i < |controls| :: cursor !in ContactsOf(controls[i], points[i]))
  }

  // Contacts the plan itself assigns: joysticks and aim.
  function PlannedContact(control: Control): nat {
    match control.action
    case Steer(joystick, _) => joystick.contact
    case Aim(aim) => if aim.contact > aim.alternate then aim.contact else aim.alternate
    case _ => 0
  }

  function HighestPlanned(controls: seq<Control>, n: nat): (highest: nat)
    requires n <= |controls|
    ensures highest < U16_LIMIT
  {
    if n == 0 then 0
    else
      var rest, last := HighestPlanned(controls, n - 1), PlannedContact(controls[n - 1]);
      if last > rest then last else rest
  }

  lemma {:induction false} HighestIsGreatest(controls: seq<Control>, n: nat)
    requires n <= |controls|
    ensures forall i | 0 <= i < n :: PlannedContact(controls[i]) <= HighestPlanned(controls, n)
    ensures HighestPlanned(controls, n) > 0 ==>
            exists i | 0 <= i < n :: PlannedContact(controls[i]) == HighestPlanned(controls, n)
  {
    if n > 0 {
      HighestIsGreatest(controls, n - 1);
    }
  }

  ghost predicate PlannedDistinct(controls: seq<Control>) {
    forall i, j | 0 <= i < j < |controls| :: ContactsOf(controls[i], None) !! ContactsOf(controls[j], None)
  }

  predicate IsPoint(control: Control) { control.action.Tap? || control.action.Hold? }

  function CountPoints(controls: seq<Control>, n: nat): nat
    requires n <= |controls|
  {
    if n == 0 then 0 else CountPoints(controls, n - 1) + if IsPoint(controls[n - 1]) then 1 else 0
  }

  // The plan's own contacts differ, and the counter gets by without saturating.
  ghost predicate IdsFit(controls: seq<Control>) {
    PlannedDistinct(controls) && HighestPlanned(controls, |controls|) + CountPoints(controls, |controls|)
        + 1 < U16_LIMIT
  }

  function Saturated(id: nat): ContactId {
    if id < U16_LIMIT then id else U16_LIMIT - 1
  }

  function SaturatingNext(id: ContactId): ContactId {
    Saturated(id + 1)
  }

  // Where the counter stands, and the ids handed out so far.
  ghost predicate Allocated(controls: seq<Control>, points: seq<Option<ContactId>>, next: ContactId) {
    var i := |points|;
    && i <= |controls|
    && var highest := HighestPlanned(controls, |controls|);
       && next == Saturated(highest + CountPoints(controls, i) + 1)
       && (forall j | 0 <= j < i :: points[j].Some? <==> IsPoint(controls[j]))
       && (forall j | 0 <= j < i && points[j].Some? ::
           points[j].value == Saturated(highest + CountPoints(controls, j) + 1))
       && (CountPoints(controls, i) > 0 ==>
             exists j :: 0 <= j < i && points[j] == Some(Saturated(highest + CountPoints(controls, i))))
  }

  // The counter of UnifiedRuntime::new. It saturates, and the ids stay apart exactly if it does not.
  method AllocatePoints(controls: seq<Control>) returns (points: seq<Option<ContactId>>, cursor: ContactId)
    ensures |points| == |controls| && forall i | 0 <= i < |controls| :: points[i].Some? <==> IsPoint(controls[i])
    ensures LaidOut(controls, points, cursor) <==> IdsFit(controls)
  {
    var next: ContactId := SaturatingNext(HighestPlanned(controls, |controls|));
    points := [];
    var i := 0;
    while i < |controls|
      invariant 0 <= i <= |controls| && |points| == i
      invariant Allocated(controls, points, next)
    {
      ghost var before, was := points, next;
      if IsPoint(controls[i]) {
        points := points + [Some(next)];
        next := SaturatingNext(next);
      } else {
        points := points + [None];
      }
      AllocatedStep(controls, before, was, points, next);
      i := i + 1;
    }
    cursor := next;
    if IdsFit(controls) {
      FittingIdsDiffer(controls, points, cursor);
    } else {
      SaturatedIdsClash(controls, points, cursor);
    }
  }

  lemma AllocatedStep(controls: seq<Control>, before: seq<Option<ContactId>>, was: ContactId,
                      points: seq<Option<ContactId>>, next: ContactId)
    requires |before| < |controls| && Allocated(controls, before, was)
    requires points == before + [if IsPoint(controls[|before|]) then Some(was) else None]
    requires next == if IsPoint(controls[|before|]) then SaturatingNext(was) else was
    ensures Allocated(controls, points, next)
  {
  }

  lemma {:induction false} CountPointsGrows(controls: seq<Control>, i: nat, j: nat)
    requires i <= j <= |controls|
    ensures CountPoints(controls, i) <= CountPoints(controls, j)
    ensures i < j && IsPoint(controls[i]) ==> CountPoints(controls, i) < CountPoints(controls, j)
    decreases j
  {
    if i < j {
      CountPointsGrows(controls, i, j - 1);
    }
  }

  lemma FittingIdsDiffer(controls: seq<Control>, points: seq<Option<ContactId>>, cursor: ContactId)
    requires |points| == |controls| && Allocated(controls, points, cursor) && IdsFit(controls)
    ensures LaidOut(controls, points, cursor)
  {
    hide HighestPlanned, CountPoints;
    HighestIsGreatest(controls, |controls|);
    forall i, j | 0 <= i < j < |controls|
      ensures ContactsOf(controls[i], points[i]) !! ContactsOf(controls[j], points[j])
    {
      CountPointsGrows(controls, i, j);
      CountPointsGrows(controls, j, |controls|);
      assert ContactsOf(controls[i], None) !! ContactsOf(controls[j], None);
      assert PlannedContact(controls[i]) <= HighestPlanned(controls, |controls|);
      assert PlannedContact(controls[j]) <= HighestPlanned(controls, |controls|);
    }
    forall i | 0 <= i < |controls| ensures cursor !in ContactsOf(controls[i], points[i]) {
      CountPointsGrows(controls, i, |controls|);
      assert PlannedContact(controls[i]) <= HighestPlanned(controls, |controls|);
    }
  }

  lemma SaturatedIdsClash(controls: seq<Control>, points: seq<Option<ContactId>>, cursor: ContactId)
    requires |points| == |controls| && Allocated(controls, points, cursor) && !IdsFit(controls)
    ensures !LaidOut(controls, points, cursor)
  {
    hide HighestPlanned, CountPoints;
    HighestIsGreatest(controls, |controls|);
    if !PlannedDistinct(controls) {
      var i, j :| 0 <= i < j < |controls| && !(ContactsOf(controls[i], None) !! ContactsOf(controls[j], None));
      assert ContactsOf(controls[i], None) <= ContactsOf(controls[i], points[i]);
      assert ContactsOf(controls[j], None) <= ContactsOf(controls[j], points[j]);
    } else if CountPoints(controls, |controls|) > 0 {
      var j :| 0 <= j < |controls| && points[j] == Some(cursor);
      assert cursor in ContactsOf(controls[j], points[j]);
    } else {
      var j :| 0 <= j < |controls| && PlannedContact(controls[j]) == cursor;
      assert cursor in ContactsOf(controls[j], points[j]);
    }
  }

  // What one control's bookkeeping says about its contacts is what the engine shows.
  ghost predicate ControlGrounded(control: Control, point: Option<ContactId>, active: bool, direction: Direction,
                                  aim: Option<AimController>, contacts: Contacts) {
    match control.action
    case Tap(_) => point.Some? && point.value !in contacts
    case Hold(at) =>
      point.Some? && (active <==> point.value in contacts) && (active ==> contacts[point.value] == at)
    case Steer(joystick, _) =>
      |joystick.targets| == 9 && joystick.Target(direction) == PositionOf(contacts, joystick.contact)
      && (active <==> direction != NEUTRAL)
    case Aim(spec) => aim.Some? && aim.value.spec == spec && aim.value.Grounded(contacts)
  }

  ghost predicate OwnedBy(controls: seq<Control>, points: seq<Option<ContactId>>, c: ContactId)
    requires |points| == |controls|
  {
    exists i :: 0 <= i < |controls| && c in ContactsOf(controls[i], points[i])
  }

  // The engine shows the contacts the bookkeeping accounts for, and no others.
  ghost predicate AllGrounded(controls: seq<Control>, points: seq<Option<ContactId>>, cursor: ContactId,
                              active: seq<bool>,
                              directions: seq<Direction>, aims: seq<Option<AimController>>, contacts: Contacts)
    requires |controls| == |points| == |active| == |directions| == |aims|
  {
    && (forall i | 0 <= i < |controls| ::
          ControlGrounded(controls[i], points[i], active[i], directions[i], aims[i], contacts))
    && (forall c | c in contacts :: c == cursor || OwnedBy(controls, points, c))
  }

  lemma GroundedOne(controls: seq<Control>, points: seq<Option<ContactId>>, cursor: ContactId, active: seq<bool>,
                    directions: seq<Direction>, aims: seq<Option<AimController>>, contacts: Contacts, i: nat)
    requires |controls| == |points| == |active| == |directions| == |aims| && i < |controls|
    requires AllGrounded(controls, points, cursor, active, directions, aims, contacts)
    ensures ControlGrounded(controls[i], points[i], active[i], directions[i], aims[i], contacts)
  {
  }

  // A change confined to one control's contacts disturbs no other control.
  lemma Reground(controls: seq<Control>, points: seq<Option<ContactId>>, cursor: ContactId, i: nat,
                 active: seq<bool>, directions: seq<Direction>, aims: seq<Option<AimController>>, before: Contacts,
                 active': seq<bool>, directions': seq<Direction>, aims': seq<Option<AimController>>, after: Contacts)
    requires LaidOut(controls, points, cursor) && i < |controls|
    requires |controls| == |active| == |directions| == |aims| == |active'| == |directions'| == |aims'|
    requires AllGrounded(controls, points, cursor, active, directions, aims, before)
    requires active' == active[i := active'[i]] && directions' == directions[i := directions'[i]]
             && aims' == aims[i := aims'[i]]
    requires SameOutside(before, after, ContactsOf(controls[i], points[i]))
    requires ControlGrounded(controls[i], points[i], active'[i], directions'[i], aims'[i], after)
    ensures AllGrounded(controls, points, cursor, active', directions', aims', after)
  {
    var ids := ContactsOf(controls[i], points[i]);
    forall j | 0 <= j < |controls| && j != i
      ensures ControlGrounded(controls[j], points[j], active'[j], directions'[j], aims'[j], after)
    {
      assert ControlGrounded(controls[j], points[j], active[j], directions[j], aims[j], before);
      assert ContactsOf(controls[j], points[j]) !! ids;
      GroundedElsewhere(controls[j], points[j], active[j], directions[j], aims[j], before, after, ids);
    }
    forall c | c in after ensures c == cursor || OwnedBy(controls, points, c) {
      if c !in ids { assert c in before; }
    }
  }

  // Every contact that may ever be put down.
  ghost function ReservedUpTo(controls: seq<Control>, points: seq<Option<ContactId>>, n: nat): set<ContactId>
    requires n <= |controls| == |points|
  {
    if n == 0 then {} else ReservedUpTo(controls, points, n - 1) + ContactsOf(controls[n - 1], points[n - 1])
  }

  ghost function Reserved(controls: seq<Control>, points: seq<Option<ContactId>>, cursor: ContactId): set<ContactId>
    requires |controls| == |points|
  {
    ReservedUpTo(controls, points, |controls|) + {cursor}
  }

  lemma {:induction false} ReservedHas(controls: seq<Control>, points: seq<Option<ContactId>>, n: nat, i: nat)
    requires i < n <= |controls| == |points|
    ensures ContactsOf(controls[i], points[i]) <= ReservedUpTo(controls, points, n)
  {
    if i < n - 1 { ReservedHas(controls, points, n - 1, i); }
  }

  // An aim controller has two contacts, any other control one.
  function ContactCount(controls: seq<Control>, n: nat): nat
    requires n <= |controls|
  {
    if n == 0 then 0 else ContactCount(controls, n - 1) + if controls[n - 1].action.Aim? then 2 else 1
  }

  lemma {:induction false} ReservedIsSmall(controls: seq<Control>, points: seq<Option<ContactId>>, n: nat)
    requires n <= |controls| == |points|
    ensures |ReservedUpTo(controls, points, n)| <= ContactCount(controls, n)
  {
    if n > 0 {
      ReservedIsSmall(controls, points, n - 1);
      AtMostTwo(ReservedUpTo(controls, points, n - 1), controls[n - 1], points[n - 1]);
    }
  }

  lemma AtMostTwo(reserved: set<ContactId>, control: Control, point: Option<ContactId>)
    ensures |reserved + ContactsOf(control, point)| <= |reserved| + if control.action.Aim? then 2 else 1
  {
    if control.action.Aim? {
      assert ContactsOf(control, point) == {control.action.aim.contact} + {control.action.aim.alternate};
    }
    assert |reserved + ContactsOf(control, point)| <= |reserved| + |ContactsOf(control, point)|;
  }

  lemma GroundedReserved(controls: seq<Control>, points: seq<Option<ContactId>>, cursor: ContactId, active: seq<bool>,
                         directions: seq<Direction>, aims: seq<Option<AimController>>, contacts: Contacts)
    requires |controls| == |points| == |active| == |directions| == |aims|
    requires AllGrounded(controls, points, cursor, active, directions, aims, contacts)
    ensures contacts.Keys <= Reserved(controls, points, cursor)
  {
    forall c | c in contacts ensures c in Reserved(controls, points, cursor) {
      if c != cursor {
        var i :| 0 <= i < |controls| && c in ContactsOf(controls[i], points[i]);
        ReservedHas(controls, points, |controls|, i);
      }
    }
  }

  lemma FreshGrounded(plan: Plan, points: seq<Option<ContactId>>, cursor: ContactId, active: seq<bool>,
                      directions: seq<Direction>, aims: seq<Option<AimController>>)
    requires plan.Valid() && LaidOut(plan.controls, points, cursor)
    requires |plan.controls| == |active| == |directions| == |aims|
    requires forall i | 0 <= i < |plan.controls| ::
               && !active[i] && directions[i] == NEUTRAL
               && (plan.controls[i].action.Aim? ==> aims[i] == Some(NewAim(plan.controls[i].action.aim)))
    ensures AllGrounded(plan.controls, points, cursor, active, directions, aims, map[])
  {
  }

  lemma FreshSettled(plan: Plan, active: seq<bool>, directions: seq<Direction>)
    requires plan.Valid() && |plan.controls| == |active| == |directions|
    requires forall i | 0 <= i < |plan.controls| :: !active[i] && directions[i] == NEUTRAL
    ensures AllSettled(plan, active, directions, NOTHING_HELD)
  {
  }

  // What the first loop of a reconcile pass computes for one control.
  ghost predicate Desires(plan: Plan, control: Control, current: Direction, held: Held, wanted: bool,
                          direction: Direction)
    requires |plan.layerControls| == KEY_COUNT
  {
    && direction == DirectionWanted(plan, control, current, held)
    && wanted == (if control.action.Steer? then direction != NEUTRAL else HoldWanted(plan, control, held))
  }

  ghost predicate SettledControl(plan: Plan, control: Control, active: bool, direction: Direction, held: Held)
    requires |plan.layerControls| == KEY_COUNT
  {
    && (control.action.Hold? ==> active == HoldWanted(plan, control, held))
    && (control.action.Steer? ==> direction == DirectionWanted(plan, control, direction, held))
  }

  lemma GroundedElsewhere(control: Control, point: Option<ContactId>, active: bool, direction: Direction,
                          aim: Option<AimController>, before: Contacts, after: Contacts, ids: set<ContactId>)
    requires ControlGrounded(control, point, active, direction, aim, before)
    requires SameOutside(before, after, ids) && ContactsOf(control, point) !! ids
    ensures ControlGrounded(control, point, active, direction, aim, after)
  {
  }

  // ---------------------------------------------------------------------------------------
  // What a reconcile pass does to ownership, change by change.

  datatype Snapshot = Snapshot(active: seq<bool>, directions: seq<Direction>, touching: set<ContactId>)

  ghost predicate Owns(controls: seq<Control>, less: Snapshot, more: Snapshot)
    requires |less.active| == |less.directions| == |more.active| == |more.directions| == |controls|
  {
    forall i | 0 <= i < |controls| ::
      && (controls[i].action.Hold? && less.active[i] ==> more.active[i])
      && (controls[i].action.Steer? ==> less.directions[i].Within(more.directions[i]))
  }

  lemma OwnsTurn(controls: seq<Control>, less: Snapshot, more: Snapshot, i: nat)
    requires |less.active| == |less.directions| == |more.active| == |more.directions| == |controls|
    requires i < |controls| && controls[i].action.Steer? && less.directions[i].Within(more.directions[i])
    requires more.directions == less.directions[i := more.directions[i]]
             && more.active == less.active[i := more.active[i]]
    ensures Owns(controls, less, more)
  {
  }

  ghost predicate SnapshotsFit(controls: seq<Control>, handoff: seq<Snapshot>) {
    forall k | 0 <= k < |handoff| :: |handoff[k].active| == |handoff[k].directions| == |controls|
  }

  // First every change only gives up ownership, then every change only takes it.
  ghost predicate ShrinksThenGrows(controls: seq<Control>, handoff: seq<Snapshot>, pivot: nat)
    requires SnapshotsFit(controls, handoff)
  {
    && (forall k | 0 <= k < |handoff| - 1 && k < pivot :: Owns(controls, handoff[k + 1], handoff[k]))
    && (forall k | 0 <= k < |handoff| - 1 && pivot <= k :: Owns(controls, handoff[k], handoff[k + 1]))
  }

  // ... and the same of the contacts on the screen.
  ghost predicate TouchesShrinkThenGrow(handoff: seq<Snapshot>, pivot: nat) {
    && (forall k | 0 <= k < |handoff| - 1 && k < pivot :: handoff[k + 1].touching <= handoff[k].touching)
    && (forall k | 0 <= k < |handoff| - 1 && pivot <= k :: handoff[k].touching <= handoff[k + 1].touching)
  }

  lemma LogStarts(controls: seq<Control>, handoff: seq<Snapshot>)
    requires |handoff| == 1 && SnapshotsFit(controls, handoff)
    ensures ShrinksThenGrows(controls, handoff, 0) && TouchesShrinkThenGrow(handoff, 0)
  {
  }

  lemma AppendShrink(controls: seq<Control>, handoff: seq<Snapshot>, next: Snapshot)
    requires handoff != [] && SnapshotsFit(controls, handoff)
    requires ShrinksThenGrows(controls, handoff, |handoff| - 1)
    requires |next.active| == |next.directions| == |controls| && Owns(controls, next, handoff[|handoff| - 1])
    ensures SnapshotsFit(controls, handoff + [next]) && ShrinksThenGrows(controls, handoff + [next], |handoff|)
    ensures TouchesShrinkThenGrow(handoff, |handoff| - 1) && next.touching <= handoff[|handoff| - 1].touching ==>
              TouchesShrinkThenGrow(handoff + [next], |handoff|)
  {
  }

  lemma AppendGrow(controls: seq<Control>, handoff: seq<Snapshot>, pivot: nat, next: Snapshot)
    requires pivot < |handoff| && SnapshotsFit(controls, handoff)
    requires ShrinksThenGrows(controls, handoff, pivot)
    requires |next.active| == |next.directions| == |controls| && Owns(controls, handoff[|handoff| - 1], next)
    ensures SnapshotsFit(controls, handoff + [next]) && ShrinksThenGrows(controls, handoff + [next], pivot)
    ensures TouchesShrinkThenGrow(handoff, pivot) && handoff[|handoff| - 1].touching <= next.touching ==>
              TouchesShrinkThenGrow(handoff + [next], pivot)
  {
  }

  lemma {:induction false} ShrinkingBound(handoff: seq<Snapshot>, pivot: nat, k: nat)
    requires TouchesShrinkThenGrow(handoff, pivot) && k < |handoff| && k <= pivot
    ensures handoff[k].touching <= handoff[0].touching
    decreases k
  {
    if k > 0 { ShrinkingBound(handoff, pivot, k - 1); }
  }

  lemma {:induction false} GrowingBound(handoff: seq<Snapshot>, pivot: nat, k: nat)
    requires TouchesShrinkThenGrow(handoff, pivot) && pivot <= k < |handoff|
    ensures handoff[k].touching <= handoff[|handoff| - 1].touching
    decreases |handoff| - k
  {
    if k < |handoff| - 1 { GrowingBound(handoff, pivot, k + 1); }
  }

  // So at no moment are more contacts down than before or after.
  lemma PeakBound(handoff: seq<Snapshot>, pivot: nat, k: nat)
    requires TouchesShrinkThenGrow(handoff, pivot) && k < |handoff|
    ensures |handoff[k].touching| <= |handoff[0].touching| || |handoff[k].touching| <= |handoff[|handoff| - 1].touching|
  {
    if k <= pivot {
      ShrinkingBound(handoff, pivot, k);
      SubsetSize(handoff[k].touching, handoff[0].touching);
    } else {
      GrowingBound(handoff, pivot, k);
      SubsetSize(handoff[k].touching, handoff[|handoff| - 1].touching);
    }
  }

  function CountHolds(controls: seq<Control>, active: seq<bool>, n: nat): (count: nat)
    requires n <= |controls| == |active|
  {
    if n == 0 then 0
    else CountHolds(controls, active, n - 1) + if controls[n - 1].action.Hold? && active[n - 1] then 1 else 0
  }

  lemma {:induction false} CountHoldsGrows(controls: seq<Control>, less: Snapshot, more: Snapshot, n: nat)
    requires |less.active| == |less.directions| == |more.active| == |more.directions| == |controls|
    requires Owns(controls, less, more) && n <= |controls|
    ensures CountHolds(controls, less.active, n) <= CountHolds(controls, more.active, n)
  {
    if n > 0 { CountHoldsGrows(controls, less, more, n - 1); }
  }

  lemma {:induction false} ShrinkingHolds(controls: seq<Control>, handoff: seq<Snapshot>, pivot: nat, k: nat)
    requires SnapshotsFit(controls, handoff) && ShrinksThenGrows(controls, handoff, pivot)
    requires k < |handoff| && k <= pivot
    ensures CountHolds(controls, handoff[k].active, |controls|) <= CountHolds(controls, handoff[0].active, |controls|)
    decreases k
  {
    if k > 0 {
      CountHoldsGrows(controls, handoff[k], handoff[k - 1], |controls|);
      ShrinkingHolds(controls, handoff, pivot, k - 1);
    }
  }

  lemma {:induction false} GrowingHolds(controls: seq<Control>, handoff: seq<Snapshot>, pivot: nat, k: nat)
    requires SnapshotsFit(controls, handoff) && ShrinksThenGrows(controls, handoff, pivot)
    requires pivot <= k < |handoff|
    ensures CountHolds(controls, handoff[k].active, |controls|)
         <= CountHolds(controls, handoff[|handoff| - 1].active, |controls|)
    decreases |handoff| - k
  {
    if k < |handoff| - 1 {
      CountHoldsGrows(controls, handoff[k], handoff[k + 1], |controls|);
      GrowingHolds(controls, handoff, pivot, k + 1);
    }
  }

  // Throughout a pass no more hold bindings are active than before it or after it.
  lemma HoldPeak(controls: seq<Control>, handoff: seq<Snapshot>, pivot: nat, k: nat)
    requires SnapshotsFit(controls, handoff) && ShrinksThenGrows(controls, handoff, pivot) && k < |handoff|
    ensures var count := CountHolds(controls, handoff[k].active, |controls|);
            || count <= CountHolds(controls, handoff[0].active, |controls|)
            || count <= CountHolds(controls, handoff[|handoff| - 1].active, |controls|)
  {
    if k <= pivot {
      ShrinkingHolds(controls, handoff, pivot, k);
    } else {
      GrowingHolds(controls, handoff, pivot, k);
    }
  }

  // ---------------------------------------------------------------------------------------
  // When a pass runs out of slots

  function StickStep(current: Direction, next: Direction): int {
    (if next.Rests() then 0 else 1) - if current.Rests() then 0 else 1
  }

  // What each step of the three loops adds to the number of contacts.
  function ReleaseSteps(controls: seq<Control>, current: seq<Direction>, desired: seq<Direction>): (steps: seq<int>)
    requires |controls| == |current| == |desired|
    ensures |steps| == |controls|
  {
    seq(|controls|, i requires 0 <= i < |controls| =>
      StickStep(current[i], Retained(controls[i], current[i], desired[i])))
  }

  function LiftSteps(controls: seq<Control>, active: seq<bool>, desired: seq<bool>): (steps: seq<int>)
    requires |controls| == |active| == |desired|
    ensures |steps| == |controls|
  {
    seq(|controls|, i requires 0 <= i < |controls| =>
      LiftStep(controls[i], active[i], desired[i]))
  }

  function LiftStep(control: Control, active: bool, desired: bool): int {
    if control.action.Hold? && active && !desired then -1 else 0
  }

  function TakeSteps(controls: seq<Control>, active: seq<bool>, current: seq<Direction>, desired: seq<bool>,
                     desiredDirections: seq<Direction>): (steps: seq<int>)
    requires |controls| == |active| == |current| == |desired| == |desiredDirections|
    ensures |steps| == |controls|
  {
    seq(|controls|, i requires 0 <= i < |controls| => TakeStep(controls[i], active[i], current[i], desired[i],
                                                               desiredDirections[i]))
  }

  function TakeStep(control: Control, active: bool, current: Direction, desired: bool,
                    desiredDirection: Direction): int {
    match control.action
    case Hold(_) => if desired && !active then 1 else 0
    case Steer(_, _) => StickStep(current.Intersect(desiredDirection), desiredDirection)
    case _ => 0
  }

  function PassSteps(controls: seq<Control>, active: seq<bool>, current: seq<Direction>, desired: seq<bool>,
                     desiredDirections: seq<Direction>): seq<int>
    requires |controls| == |active| == |current| == |desired| == |desiredDirections|
  {
    ReleaseSteps(controls, current, desiredDirections)
    + (LiftSteps(controls, active, desired) + TakeSteps(controls, active, current, desired, desiredDirections))
  }

  // So a pass fails for want of a slot exactly if it would, at some moment, have too many contacts down.
  lemma CrowdedMeansPeak(controls: seq<Control>, active: seq<bool>, current: seq<Direction>, desired: seq<bool>,
                         desiredDirections: seq<Direction>, count: nat, capacity: nat)
    requires |controls| == |active| == |current| == |desired| == |desiredDirections| && count <= capacity
    ensures var steps := PassSteps(controls, active, current, desired, desiredDirections);
            Overflows(count, steps, capacity) <==>
              exists k :: 0 <= k <= |steps| && count + Total(steps[..k]) > capacity
  {
    OverflowsMeansPeak(count, PassSteps(controls, active, current, desired, desiredDirections), capacity);
  }

  lemma NoStep(direction: Direction, count: nat, capacity: nat)
    ensures StickStep(direction, direction) == 0
    ensures StepCounts(true, false, 0, count, count, capacity)
  {
  }

  lemma PressingStep(current: Direction, next: Direction, ok: bool, refused: bool, before: nat, after: nat,
                     capacity: nat)
    requires StepCounts(ok, refused, StickStep(current, next), before, after, capacity)
    ensures !ok && !refused <==> current.Rests() && !next.Rests() && before >= capacity
  {
  }

  lemma ReleaseStepAt(controls: seq<Control>, current: seq<Direction>, desired: seq<Direction>, rest: seq<int>, i: nat)
    requires i < |controls| == |current| == |desired|
    ensures (ReleaseSteps(controls, current, desired) + rest)[i]
         == StickStep(current[i], Retained(controls[i], current[i], desired[i]))
  {
  }

  lemma LiftStepAt(controls: seq<Control>, active: seq<bool>, desired: seq<bool>, rest: seq<int>, i: nat)
    requires i < |controls| == |active| == |desired|
    ensures (LiftSteps(controls, active, desired) + rest)[i]
         == LiftStep(controls[i], active[i], desired[i])
  {
  }

  lemma TakeStepAt(controls: seq<Control>, active: seq<bool>, current: seq<Direction>, active': seq<bool>,
                   current': seq<Direction>, desired: seq<bool>, desiredDirections: seq<Direction>, i: nat)
    requires i < |controls| == |active| == |current| == |desired| == |desiredDirections|
    requires Untaken(active, current, active', current', i)
    ensures TakeSteps(controls, active, current, desired, desiredDirections)[i]
         == TakeStep(controls[i], active'[i], current'[i], desired[i], desiredDirections[i])
  {
  }

  lemma SteerCounts(joystick: Joystick, current: Direction, next: Direction, before: Contacts, after: Contacts,
                    ok: bool, refused: bool, roomy: bool, capacity: nat)
    requires |joystick.targets| == 9
    requires joystick.Target(current) == PositionOf(before, joystick.contact)
    requires ok ==> joystick.Target(next) == PositionOf(after, joystick.contact)
    requires SameOutside(before, after, {joystick.contact})
    requires roomy <==> joystick.contact in before || |before| < capacity
    requires !ok && !refused <==> joystick.Target(next).Some? && !roomy
    ensures StepCounts(ok, refused, StickStep(current, next), |before|, |after|, capacity)
  {
    KeysBut(before, after, joystick.contact);
  }

  lemma HoldCounts(contact: ContactId, pressed: bool, before: Contacts, after: Contacts)
    requires (contact in after) == pressed && (contact in before) == !pressed
    requires SameOutside(before, after, {contact})
    ensures |after| == |before| + if pressed then 1 else -1
  {
    KeysBut(before, after, contact);
  }

  // Two contact maps that agree but for one contact.
  lemma KeysBut(before: Contacts, after: Contacts, contact: ContactId)
    requires SameOutside(before, after, {contact})
    ensures |before| - (if contact in before then 1 else 0) == |after| - if contact in after then 1 else 0
  {
    assert before.Keys - {contact} == after.Keys - {contact};
    hide SameOutside;
    WithoutOne(before.Keys, contact);
    WithoutOne(after.Keys, contact);
  }

  lemma WithoutOne(ids: set<ContactId>, id: ContactId)
    ensures |ids - {id}| == |ids| - if id in ids then 1 else 0
  {
  }

  // From here on nothing has been taken yet.
  ghost predicate Untaken(active: seq<bool>, directions: seq<Direction>, active': seq<bool>,
                          directions': seq<Direction>, n: nat) {
    && |active| == |active'| && |directions| == |directions'|
    && (forall i | n <= i < |active| :: active'[i] == active[i])
    && (forall i | n <= i < |directions| :: directions'[i] == directions[i])
  }

  lemma UntakenYet(active: seq<bool>, directions: seq<Direction>)
    ensures Untaken(active, directions, active, directions, 0)
  {
  }

  lemma UntakenMore(active: seq<bool>, directions: seq<Direction>, active': seq<bool>, directions': seq<Direction>,
                    active'': seq<bool>, directions'': seq<Direction>, n: nat)
    requires Untaken(active, directions, active', directions', n)
    requires Untaken(active', directions', active'', directions'', n + 1)
    ensures Untaken(active, directions, active'', directions'', n + 1)
  {
  }

  // What is left after giving up is taken in the same steps as from the start.
  lemma TakeStepsAfterRelease(controls: seq<Control>, active: seq<bool>, current: seq<Direction>, kept: seq<bool>,
                              desired: seq<bool>, desiredDirections: seq<Direction>)
    requires |controls| == |active| == |current| == |kept| == |desired| == |desiredDirections|
    requires HoldsGivenUp(controls, active, desired, kept)
    ensures TakeSteps(controls, kept, RetainedUpTo(controls, current, desiredDirections, |controls|), desired,
                      desiredDirections)
         == TakeSteps(controls, active, current, desired, desiredDirections)
  {
  }

  lemma LiftStepsKept(controls: seq<Control>, before: seq<bool>, after: seq<bool>, desired: seq<bool>)
    requires |controls| == |before| == |after| == |desired| && HoldsKept(controls, before, after)
    ensures LiftSteps(controls, before, desired) == LiftSteps(controls, after, desired)
  {
  }

  // The contacts on the screen after a pass: everything the pass does not manage, and every hold
  // and joystick that is wanted.
  ghost function ManagedUpTo(controls: seq<Control>, points: seq<Option<ContactId>>, n: nat): set<ContactId>
    requires n <= |controls| == |points|
  {
    if n == 0 then {}
    else ManagedUpTo(controls, points, n - 1)
         + if controls[n - 1].action.Hold? || controls[n - 1].action.Steer?
             then ContactsOf(controls[n - 1], points[n - 1]) else {}
  }

  ghost predicate Pressed(control: Control, wanted: bool, direction: Direction) {
    match control.action
    case Hold(_) => wanted
    case Steer(joystick, _) => |joystick.targets| == 9 && joystick.Target(direction).Some?
    case _ => false
  }

  ghost function PressedUpTo(controls: seq<Control>, points: seq<Option<ContactId>>, wanted: seq<bool>,
                             directions: seq<Direction>, n: nat): set<ContactId>
    requires n <= |controls| == |points| == |wanted| == |directions|
  {
    if n == 0 then {}
    else PressedUpTo(controls, points, wanted, directions, n - 1)
         + if Pressed(controls[n - 1], wanted[n - 1], directions[n - 1]) then ContactsOf(controls[n - 1], points[n - 1])
             else {}
  }

  lemma {:induction false} ManagedHas(controls: seq<Control>, points: seq<Option<ContactId>>, n: nat, c: ContactId)
    requires n <= |controls| == |points|
    ensures c in ManagedUpTo(controls, points, n) <==>
              exists i :: 0 <= i < n && (controls[i].action.Hold? || controls[i].action.Steer?)
                  && c in ContactsOf(controls[i], points[i])
  {
    if n > 0 { ManagedHas(controls, points, n - 1, c); }
  }

  lemma {:induction false} PressedHas(controls: seq<Control>, points: seq<Option<ContactId>>, wanted: seq<bool>,
                                      directions: seq<Direction>, n: nat, c: ContactId)
    requires n <= |controls| == |points| == |wanted| == |directions|
    ensures c in PressedUpTo(controls, points, wanted, directions, n) <==>
              exists i :: 0 <= i < n && Pressed(controls[i], wanted[i], directions[i])
                  && c in ContactsOf(controls[i], points[i])
  {
    if n > 0 { PressedHas(controls, points, wanted, directions, n - 1, c); }
  }

  ghost predicate Unopposed(controls: seq<Control>, directions: seq<Direction>)
    requires |controls| == |directions|
  {
    forall i | 0 <= i < |controls| :: controls[i].action.Steer? ==> !directions[i].Opposed()
  }

  // What one control keeps of its directions, and of its contact, when what is not wanted is given up.
  function Retained(control: Control, current: Direction, desired: Direction): Direction {
    if control.action.Steer? then current.Intersect(desired) else current
  }

  function KeptActive(control: Control, active: bool, desired: bool): bool {
    if control.action.Hold? then active && desired else active
  }

  // Directions after the release loop has passed the first n controls.
  function RetainedUpTo(controls: seq<Control>, current: seq<Direction>, desired: seq<Direction>,
                        n: nat): (r: seq<Direction>)
    requires n <= |controls| == |current| == |desired|
    ensures |r| == |controls|
  {
    seq(|controls|, i requires 0 <= i < |controls| =>
      if i < n then Retained(controls[i], current[i], desired[i]) else current[i])
  }

  lemma RetainedStep(controls: seq<Control>, current: seq<Direction>, desired: seq<Direction>, n: nat)
    requires n < |controls| == |current| == |desired|
    ensures RetainedUpTo(controls, current, desired, n)[n] == current[n]
    ensures RetainedUpTo(controls, current, desired, n + 1)
         == RetainedUpTo(controls, current, desired, n)
              [n := Retained(controls[n], current[n], desired[n])]
    ensures AllWithin(controls, current, desired) ==> Retained(controls[n], current[n], desired[n]) == current[n]
  {
  }

  ghost predicate AllWithin(controls: seq<Control>, current: seq<Direction>, desired: seq<Direction>)
    requires |controls| == |current| == |desired|
  {
    forall i | 0 <= i < |controls| && controls[i].action.Steer? :: current[i].Within(desired[i])
  }

  // Flags after the second loop has passed the first n controls: holds nobody wants are given up.
  function KeptUpTo(controls: seq<Control>, active: seq<bool>, desired: seq<bool>, n: nat): (r: seq<bool>)
    requires n <= |controls| == |active| == |desired|
    ensures |r| == |controls|
  {
    seq(|controls|, i requires 0 <= i < |controls| =>
      if i < n then KeptActive(controls[i], active[i], desired[i]) else active[i])
  }

  lemma KeptStep(controls: seq<Control>, active: seq<bool>, desired: seq<bool>, n: nat)
    requires n < |controls| == |active| == |desired|
    ensures KeptUpTo(controls, active, desired, n)[n] == active[n]
    ensures KeptUpTo(controls, active, desired, n + 1)
         == KeptUpTo(controls, active, desired, n)[n := KeptActive(controls[n], active[n], desired[n])]
    ensures HoldsWithin(controls, active, desired) ==> KeptActive(controls[n], active[n], desired[n]) == active[n]
  {
  }

  lemma NothingGivenUp(controls: seq<Control>, active: seq<bool>, desired: seq<bool>, current: seq<Direction>,
                       desiredDirections: seq<Direction>)
    requires |controls| == |active| == |desired| == |current| == |desiredDirections|
    ensures KeptUpTo(controls, active, desired, 0) == active
    ensures RetainedUpTo(controls, current, desiredDirections, 0) == current
  {
  }

  ghost predicate HoldsWithin(controls: seq<Control>, active: seq<bool>, desired: seq<bool>)
    requires |controls| == |active| == |desired|
  {
    forall i | 0 <= i < |controls| && controls[i].action.Hold? :: active[i] ==> desired[i]
  }

  ghost predicate HoldsGivenUp(controls: seq<Control>, before: seq<bool>, desired: seq<bool>, after: seq<bool>)
    requires |controls| == |before| == |desired| == |after|
  {
    forall i | 0 <= i < |controls| && controls[i].action.Hold? :: after[i] == (before[i] && desired[i])
  }

  // The holds and joysticks among the first n controls are as desired.
  ghost predicate GrantedUpTo(controls: seq<Control>, active: seq<bool>, directions: seq<Direction>,
                              desired: seq<bool>, desiredDirections: seq<Direction>, n: nat)
    requires n <= |controls| == |active| == |directions| == |desired| == |desiredDirections|
  {
    forall i | 0 <= i < n ::
      && (controls[i].action.Hold? ==> active[i] == desired[i])
      && (controls[i].action.Steer? ==> directions[i] == desiredDirections[i])
  }

  // Only joysticks' flags may differ.
  ghost predicate HoldsKept(controls: seq<Control>, before: seq<bool>, after: seq<bool>)
    requires |controls| == |before| == |after|
  {
    forall i | 0 <= i < |controls| && !controls[i].action.Steer? :: after[i] == before[i]
  }

  lemma HoldsKeptItself(controls: seq<Control>, active: seq<bool>)
    requires |controls| == |active|
    ensures HoldsKept(controls, active, active)
  {
  }

  lemma HoldsKeptMore(controls: seq<Control>, before: seq<bool>, between: seq<bool>, after: seq<bool>)
    requires |controls| == |before| == |between| == |after|
    ensures HoldsKept(controls, before, between) && HoldsKept(controls, between, after) ==>
            HoldsKept(controls, before, after)
  {
  }

  function Raised(control: Control, layers: set<nat>, owner: Option<LayerId>): Option<LayerId> {
    if LayerActive(control.layer, layers) && (owner.None? || control.layer > owner.value) then Some(control.layer)
        else owner
  }

  lemma BindsIffBound(control: Control, input: Input)
    ensures control.Binds(input) <==> input in BoundInputs(control.binding)
  {
  }

  lemma PlannedAction(plan: Plan, i: nat)
    requires plan.Valid() && i < |plan.controls|
    ensures plan.ActionValid(plan.controls[i].action)
  {
  }

  function TurnFrames(joystick: Joystick, current: Direction, next: Direction): seq<Frame>
    requires |joystick.targets| == 9
  {
    SteerFrames(joystick.contact, joystick.Target(current), joystick.Target(next))
  }

  lemma RoomyMeans(engine: TouchEngine, contact: ContactId)
    ensures Roomy(engine, contact) <==>
            contact in engine.contacts || |engine.contacts| < engine.injector.config.slotCount
  {
  }

  // Without opposing keys, letting go of directions never puts the stick's contact down.
  lemma TameRelease(joystick: Joystick, current: Direction, wanted: Direction, before: Contacts)
    requires |joystick.targets| == 9 && !current.Opposed()
    requires joystick.Target(current) == PositionOf(before, joystick.contact)
    ensures joystick.Target(current.Intersect(wanted)).Some? ==> joystick.contact in before
  {
  }

  lemma TameShrinks(contact: ContactId, before: Contacts, after: Contacts)
    requires contact in after ==> contact in before
    requires SameOutside(before, after, {contact})
    ensures after.Keys <= before.Keys
  {
  }

  // Without opposing keys, taking more directions never lifts the stick's contact.
  lemma TameGrows(joystick: Joystick, current: Direction, wanted: Direction, before: Contacts, after: Contacts)
    requires |joystick.targets| == 9 && !wanted.Opposed() && current.Within(wanted)
    requires joystick.Target(current) == PositionOf(before, joystick.contact)
    requires joystick.Target(wanted) == PositionOf(after, joystick.contact)
    requires SameOutside(before, after, {joystick.contact})
    ensures before.Keys <= after.Keys
  {
  }

  ghost predicate AllDesired(plan: Plan, directions: seq<Direction>, held: Held, desired: seq<bool>,
                             desiredDirections: seq<Direction>)
    requires |plan.layerControls| == KEY_COUNT
    requires |plan.controls| == |directions| == |desired| == |desiredDirections|
  {
    forall i | 0 <= i < |plan.controls| ::
      Desires(plan, plan.controls[i], directions[i], held, desired[i], desiredDirections[i])
  }

  ghost predicate AllSettled(plan: Plan, active: seq<bool>, directions: seq<Direction>, held: Held)
    requires |plan.layerControls| == KEY_COUNT
    requires |plan.controls| == |active| == |directions|
  {
    forall i | 0 <= i < |plan.controls| :: SettledControl(plan, plan.controls[i], active[i], directions[i], held)
  }

  // Settled is exactly: nothing to give up and nothing to take.
  lemma SettledMeansGranted(plan: Plan, active: seq<bool>, directions: seq<Direction>, held: Held,
                            desired: seq<bool>, desiredDirections: seq<Direction>)
    requires plan.Valid() && |plan.controls| == |active| == |directions| == |desired| == |desiredDirections|
    requires AllDesired(plan, directions, held, desired, desiredDirections)
    ensures AllSettled(plan, active, directions, held) <==>
              GrantedUpTo(plan.controls, active, directions, desired, desiredDirections, |plan.controls|)
    ensures AllSettled(plan, active, directions, held) ==>
              AllWithin(plan.controls, directions, desiredDirections) && HoldsWithin(plan.controls, active, desired)
  {
  }

  // Granting what was computed settles everything, whatever the directions were before.
  lemma GrantedSettles(plan: Plan, before: seq<Direction>, active: seq<bool>, directions: seq<Direction>, held: Held,
                       desired: seq<bool>, desiredDirections: seq<Direction>)
    requires plan.Valid() && |plan.controls| == |before| == |active| == |directions| == |desired| == |desiredDirections|
    requires AllDesired(plan, before, held, desired, desiredDirections)
    requires GrantedUpTo(plan.controls, active, directions, desired, desiredDirections, |plan.controls|)
    ensures AllSettled(plan, active, directions, held)
  {
  }

  lemma ReleasedWithin(controls: seq<Control>, before: seq<bool>, active: seq<bool>, directions: seq<Direction>,
                       desired: seq<bool>, desiredDirections: seq<Direction>)
    requires |controls| == |before| == |active| == |directions| == |desired| == |desiredDirections|
    requires HoldsKept(controls, before, active)
    ensures AllWithin(controls, RetainedUpTo(controls, directions, desiredDirections, |controls|), desiredDirections)
    ensures HoldsWithin(controls, KeptUpTo(controls, active, desired, |controls|), desired)
    ensures HoldsGivenUp(controls, before, desired, KeptUpTo(controls, active, desired, |controls|))
    ensures HoldsWithin(controls, before, desired) ==> HoldsWithin(controls, active, desired)
  {
  }

  // The contacts a pass may leave down: those it does not manage, and those it wants.
  ghost function Room(controls: seq<Control>, points: seq<Option<ContactId>>, before: set<ContactId>,
                      desired: seq<bool>, desiredDirections: seq<Direction>): set<ContactId>
    requires |controls| == |points| == |desired| == |desiredDirections|
  {
    before - ManagedUpTo(controls, points, |controls|)
        + PressedUpTo(controls, points, desired, desiredDirections, |controls|)
  }

  lemma RoomCovers(controls: seq<Control>, points: seq<Option<ContactId>>, before: set<ContactId>,
                   desired: seq<bool>, desiredDirections: seq<Direction>)
    requires |controls| == |points| == |desired| == |desiredDirections|
    ensures PressedUpTo(controls, points, desired, desiredDirections, |controls|)
         <= Room(controls, points, before, desired, desiredDirections)
  {
  }

  lemma ReleasedInRoom(controls: seq<Control>, points: seq<Option<ContactId>>, cursor: ContactId, active: seq<bool>,
                       directions: seq<Direction>, aims: seq<Option<AimController>>, before: Contacts,
                       contacts: Contacts, desired: seq<bool>, desiredDirections: seq<Direction>)
    requires |controls| == |points| == |active| == |directions| == |aims| == |desired| == |desiredDirections|
    requires AllGrounded(controls, points, cursor, active, directions, aims, contacts)
    requires AllWithin(controls, directions, desiredDirections) && HoldsWithin(controls, active, desired)
    requires Unopposed(controls, desiredDirections)
    requires SameOutside(before, contacts, ManagedUpTo(controls, points, |controls|))
    ensures contacts.Keys <= Room(controls, points, before.Keys, desired, desiredDirections)
  {
    forall c | c in contacts && c in ManagedUpTo(controls, points, |controls|)
      ensures c in PressedUpTo(controls, points, desired, desiredDirections, |controls|)
    {
      ManagedHas(controls, points, |controls|, c);
      var i :| 0 <= i < |controls| && (controls[i].action.Hold? || controls[i].action.Steer?)
          && c in ContactsOf(controls[i], points[i]);
      assert ControlGrounded(controls[i], points[i], active[i], directions[i], aims[i], contacts);
      if controls[i].action.Steer? {
        assert directions[i].Within(desiredDirections[i]) && !desiredDirections[i].Opposed();
      }
      PressedHas(controls, points, desired, desiredDirections, |controls|, c);
    }
  }

  lemma GrantedIsRoom(controls: seq<Control>, points: seq<Option<ContactId>>, cursor: ContactId, active: seq<bool>,
                      directions: seq<Direction>, aims: seq<Option<AimController>>, before: Contacts,
                      contacts: Contacts, desired: seq<bool>, desiredDirections: seq<Direction>)
    requires |controls| == |points| == |active| == |directions| == |aims| == |desired| == |desiredDirections|
    requires AllGrounded(controls, points, cursor, active, directions, aims, contacts)
    requires GrantedUpTo(controls, active, directions, desired, desiredDirections, |controls|)
    requires SameOutside(before, contacts, ManagedUpTo(controls, points, |controls|))
    ensures contacts.Keys == Room(controls, points, before.Keys, desired, desiredDirections)
  {
    var managed := ManagedUpTo(controls, points, |controls|);
    var pressed := PressedUpTo(controls, points, desired, desiredDirections, |controls|);
    forall c: ContactId
      ensures c in managed && c in contacts ==> c in pressed
      ensures c in pressed ==> c in contacts
    {
      ManagedHas(controls, points, |controls|, c);
      PressedHas(controls, points, desired, desiredDirections, |controls|, c);
      if i :|
            0 <= i < |controls| && (controls[i].action.Hold? || controls[i].action.Steer?)
            && c in ContactsOf(controls[i], points[i]) {
        assert ControlGrounded(controls[i], points[i], active[i], directions[i], aims[i], contacts);
      }
      if i :|
            0 <= i < |controls| && Pressed(controls[i], desired[i], desiredDirections[i])
            && c in ContactsOf(controls[i], points[i]) {
        assert ControlGrounded(controls[i], points[i], active[i], directions[i], aims[i], contacts);
      }
    }
  }

  // `room` is a set of contacts that fits the device and covers everything that may be down.
  lemma RoomLeft(contacts: set<ContactId>, room: set<ContactId>, c: ContactId, capacity: nat)
    requires contacts <= room && c in room && |room| <= capacity
    ensures c in contacts || |contacts| < capacity
  {
    if c !in contacts {
      SubsetSize(contacts + {c}, room);
    }
  }

  lemma RoomAfter(before: Contacts, after: Contacts, contact: ContactId, room: set<ContactId>)
    requires SameOutside(before, after, {contact}) && before.Keys <= room && (contact in after ==> contact in room)
    ensures after.Keys <= room
  {
  }

  // ---------------------------------------------------------------------------------------
  // Aim controllers

  ghost function AimContacts(controls: seq<Control>, n: nat): set<ContactId>
    requires n <= |controls|
  {
    if n == 0 then {}
    else AimContacts(controls, n - 1) + if controls[n - 1].action.Aim? then ContactsOf(controls[n - 1], None) else {}
  }

  lemma {:induction false} AimContactsHas(controls: seq<Control>, n: nat, i: nat)
    requires i < n <= |controls| && controls[i].action.Aim?
    ensures ContactsOf(controls[i], None) <= AimContacts(controls, n)
  {
    if i < n - 1 { AimContactsHas(controls, n - 1, i); }
  }

  ghost predicate AimsFit(controls: seq<Control>, aims: seq<Option<AimController>>) {
    && |aims| == |controls|
    && forall i | 0 <= i < |aims| ::
         if controls[i].action.Aim?
         then aims[i].Some? && aims[i].value.spec == controls[i].action.aim && aims[i].value.Exact()
         else aims[i].None?
  }

  // What became of one controller in a round of commands.
  ghost predicate Did(aim: AimController, command: Option<AimCommand>, shown: Contacts, after: AimController,
                      contacts: Contacts) {
    if command.Some? then
      && after.IsActive() == command.value.ActiveAfter(aim.IsActive())
      && Obeyed(command.value, aim, Own(aim, shown), after, Own(aim, contacts))
    else after == aim && Own(aim, contacts) == Own(aim, shown)
  }

  // ... and of the first n of them.
  ghost predicate Commanded(before: seq<Option<AimController>>, commands: seq<Option<AimCommand>>, shown: Contacts,
                            after: seq<Option<AimController>>, contacts: Contacts, n: nat)
    requires n <= |before| == |commands| == |after|
  {
    && (forall i | 0 <= i < n && before[i].Some? ::
          after[i].Some? && Did(before[i].value, commands[i], shown, after[i].value, contacts))
    && (forall i | 0 <= i < |before| && (i >= n || before[i].None?) :: after[i] == before[i])
  }

  lemma CommandedNone(before: seq<Option<AimController>>, commands: seq<Option<AimCommand>>, shown: Contacts)
    requires |before| == |commands|
    ensures Commanded(before, commands, shown, before, shown, 0)
  {
  }

  lemma DidNothing(aim: AimController, contacts: Contacts)
    ensures Did(aim, None, contacts, aim, contacts)
  {
  }

  lemma OwnKept(controls: seq<Control>, aim: AimController, i: nat, before: Contacts, after: Contacts)
    requires i < |controls| && controls[i].action.Aim? && aim.spec == controls[i].action.aim
    requires forall c | c in ContactsOf(controls[i], None) :: PositionOf(after, c) == PositionOf(before, c)
    ensures Own(aim, after) == Own(aim, before)
  {
    forall c | c in aim.Ids() ensures PositionOf(after, c) == PositionOf(before, c) {
      assert c in ContactsOf(controls[i], None);
    }
  }

  // One more controller: it did as it was told, and the others did not notice.
  lemma CommandedStep(controls: seq<Control>, points: seq<Option<ContactId>>, cursor: ContactId,
                      before: seq<Option<AimController>>, commands: seq<Option<AimCommand>>, shown: Contacts,
                      aims: seq<Option<AimController>>, contacts: Contacts, aims': seq<Option<AimController>>,
                      contacts': Contacts, n: nat)
    requires LaidOut(controls, points, cursor) && AimsFit(controls, before)
    requires n < |controls| == |commands| == |aims| == |aims'|
    requires Commanded(before, commands, shown, aims, contacts, n) && Undriven(controls, shown, contacts, n)
    requires aims' == aims[n := aims'[n]]
    requires if before[n].Some? then
               && aims'[n].Some? && Did(before[n].value, commands[n], contacts, aims'[n].value, contacts')
               && SameOutside(contacts, contacts', ContactsOf(controls[n], None))
             else aims' == aims && contacts' == contacts
    ensures Commanded(before, commands, shown, aims', contacts', n + 1)
  {
    hide Obeyed, Own, AimController.Exact;
    forall i | 0 <= i < n && before[i].Some?
      ensures Did(before[i].value, commands[i], shown, aims'[i].value, contacts')
    {
      assert controls[i].action.Aim? && ContactsOf(controls[i], points[i]) !! ContactsOf(controls[n], points[n]);
      OwnKept(controls, before[i].value, i, contacts, contacts');
    }
    if before[n].Some? {
      OwnKept(controls, before[n].value, n, shown, contacts);
    }
  }

  // What a round of commands costs, controller by controller.
  ghost function AimSteps(aims: seq<Option<AimController>>, commands: seq<Option<AimCommand>>,
                          contacts: Contacts): (lists: seq<seq<int>>)
    requires |aims| == |commands| && InRegions(aims)
    ensures |lists| == |aims|
  {
    seq(|aims|, i requires 0 <= i < |aims| && InRegions(aims) =>
      if aims[i].Some? && commands[i].Some?
      then commands[i].value.Steps(aims[i].value, AimPosition(aims[i].value, contacts)) else [])
  }

  ghost predicate InRegions(aims: seq<Option<AimController>>) {
    forall i | 0 <= i < |aims| && aims[i].Some? :: aims[i].value.spec.region.NonEmpty()
  }

  lemma AimsInRegions(plan: Plan, aims: seq<Option<AimController>>)
    requires plan.Valid() && AimsFit(plan.controls, aims)
    ensures InRegions(aims)
  {
  }

  // Toggling costs the same wherever the contacts are.
  lemma ToggleSteps(aims: seq<Option<AimController>>, commands: seq<Option<AimCommand>>, before: Contacts,
                    contacts: Contacts)
    requires |aims| == |commands| && InRegions(aims)
    requires forall i | 0 <= i < |commands| && commands[i].Some? :: commands[i].value.Toggle?
    ensures AimSteps(aims, commands, before) == AimSteps(aims, commands, contacts)
  {
  }

  // The aim contacts from control n on are where they were.
  ghost predicate Undriven(controls: seq<Control>, before: Contacts, after: Contacts, n: nat) {
    forall i | n <= i < |controls| && controls[i].action.Aim? ::
      forall c | c in ContactsOf(controls[i], None) :: PositionOf(after, c) == PositionOf(before, c)
  }

  lemma UndrivenYet(controls: seq<Control>, contacts: Contacts)
    ensures Undriven(controls, contacts, contacts, 0)
  {
  }

  lemma UndrivenMore(controls: seq<Control>, points: seq<Option<ContactId>>, cursor: ContactId, before: Contacts,
                     between: Contacts, after: Contacts, n: nat)
    requires LaidOut(controls, points, cursor) && n < |controls| && Undriven(controls, before, between, n)
    requires if controls[n].action.Aim? then SameOutside(between, after, ContactsOf(controls[n], None))
             else after == between
    ensures Undriven(controls, before, after, n + 1)
  {
  }

  lemma NoCommand(aims: seq<Option<AimController>>, commands: seq<Option<AimCommand>>, contacts: Contacts, i: nat)
    requires |aims| == |commands| && InRegions(aims) && i < |aims| && commands[i].None?
    ensures AimSteps(aims, commands, contacts)[i] == []
  {
  }

  predicate OnlyDeactivates(commands: seq<Option<AimCommand>>) {
    forall i | 0 <= i < |commands| && commands[i].Some? :: commands[i].value.Deactivate?
  }

  // A controller that was not commanded yet still pays what it would have from the start.
  lemma AimStepsAt(controls: seq<Control>, aims: seq<Option<AimController>>, aims': seq<Option<AimController>>,
                   commands: seq<Option<AimCommand>>, before: Contacts, contacts: Contacts, i: nat)
    requires AimsFit(controls, aims) && |aims'| == |aims| == |commands| && i < |aims| && InRegions(aims)
    requires aims[i].Some? && aims'[i] == aims[i] && commands[i].Some? && aims[i].value.Grounded(contacts)
    requires Undriven(controls, before, contacts, i)
    ensures AimSteps(aims, commands, before)[i]
         == commands[i].value.Steps(aims'[i].value, AimPosition(aims'[i].value, contacts))
  {
  }

  // Who aims once aim is switched on: who did, who has no toggle key and, if asked for, everybody.
  ghost predicate Restored(controls: seq<Control>, before: seq<Option<AimController>>, reactivate: bool,
                           after: seq<Option<AimController>>) {
    && |controls| == |before| == |after|
    && forall i | 0 <= i < |controls| && controls[i].action.Aim? ::
         && before[i].Some? && after[i].Some?
         && (after[i].value.IsActive() <==>
               before[i].value.IsActive() || controls[i].action.aim.toggleKey.None? || reactivate)
  }

  ghost predicate AdsAre(before: seq<Option<AimController>>, pressed: bool, after: seq<Option<AimController>>) {
    && |before| == |after|
    && forall i | 0 <= i < |before| ::
         after[i] == if before[i].Some? then Some(before[i].value.Sighted(pressed)) else None
  }

  // Aiming down sights changes no contact.
  lemma AdsKeepGrounded(controls: seq<Control>, points: seq<Option<ContactId>>, cursor: ContactId, active: seq<bool>,
                        directions: seq<Direction>, before: seq<Option<AimController>>, contacts: Contacts,
                        pressed: bool, after: seq<Option<AimController>>)
    requires |controls| == |points| == |active| == |directions| == |before|
    requires AdsAre(before, pressed, after)
    ensures AllGrounded(controls, points, cursor, active, directions, before, contacts) ==>
              AllGrounded(controls, points, cursor, active, directions, after, contacts)
    ensures AimsFit(controls, before) ==> AimsFit(controls, after)
    ensures SameAim(before, after)
  {
  }

  // Who is aiming is the same.
  ghost predicate SameAim(before: seq<Option<AimController>>, after: seq<Option<AimController>>) {
    && |before| == |after|
    && forall i | 0 <= i < |before| ::
         && (before[i].Some? <==> after[i].Some?)
         && (before[i].Some? ==> after[i].value.IsActive() == before[i].value.IsActive())
  }

  lemma SameAimReflexive(aims: seq<Option<AimController>>)
    ensures SameAim(aims, aims)
  {
  }

  predicate AnyActive(aims: seq<Option<AimController>>) {
    exists i | 0 <= i < |aims| :: aims[i].Some? && aims[i].value.IsActive()
  }

  ghost predicate AllIdle(aims: seq<Option<AimController>>) {
    forall i | 0 <= i < |aims| && aims[i].Some? :: aims[i].value.Idle()
  }

  // The cursor contact belongs to no control.
  lemma RegroundCursor(controls: seq<Control>, points: seq<Option<ContactId>>, cursor: ContactId, active: seq<bool>,
                       directions: seq<Direction>, aims: seq<Option<AimController>>, before: Contacts, after: Contacts)
    requires LaidOut(controls, points, cursor)
    requires |controls| == |active| == |directions| == |aims|
    requires AllGrounded(controls, points, cursor, active, directions, aims, before)
    requires SameOutside(before, after, {cursor})
    ensures AllGrounded(controls, points, cursor, active, directions, aims, after)
  {
  }

  lemma IdleGrounded(plan: Plan, points: seq<Option<ContactId>>, cursor: ContactId, active: seq<bool>,
                     directions: seq<Direction>, aims: seq<Option<AimController>>)
    requires plan.Valid() && LaidOut(plan.controls, points, cursor)
    requires |plan.controls| == |active| == |directions| && AimsFit(plan.controls, aims) && AllIdle(aims)
    requires forall i | 0 <= i < |plan.controls| :: !active[i] && directions[i] == NEUTRAL
    ensures AllGrounded(plan.controls, points, cursor, active, directions, aims, map[])
  {
  }

  predicate HasToggleKeyAim(controls: seq<Control>) {
    exists i | 0 <= i < |controls| :: controls[i].action.Aim? && controls[i].action.aim.toggleKey.Some?
  }

  predicate HasAlwaysOnAim(controls: seq<Control>) {
    exists i | 0 <= i < |controls| :: controls[i].action.Aim? && controls[i].action.aim.toggleKey.None?
  }

  // ---------------------------------------------------------------------------------------
  // What a press fires on top of the reconcile pass: taps, and toggle joysticks.

  predicate FiresTap(plan: Plan, control: Control, input: Input, held: Held) {
    && control.action.Tap?
    && !control.binding.OnCluster? && control.Binds(input)
    && BindingAvailable(plan.controls, control, input, held)
  }

  predicate FiresToggle(control: Control, input: Input) {
    control.action.Steer? && control.action.mode == ToggleMode && control.binding.OnCluster? && input.KeyInput?
  }

  function Toggled(plan: Plan, control: Control, current: Direction, input: Input, held: Held): Direction {
    if !FiresToggle(control, input) then current
    else
      var OnCluster(up, left, down, right) := control.binding;
      var fires := BindingAvailable(plan.controls, control, input, held);
      Direction(current.up != (fires && up == input.key), current.left != (fires && left == input.key),
                current.down != (fires && down == input.key), current.right != (fires && right == input.key))
  }

  function Fired(plan: Plan, control: Control, point: Option<ContactId>, current: Direction, input: Input,
                 held: Held): seq<Frame>
    requires control.action.Tap? ==> point.Some?
    requires control.action.Steer? ==> |control.action.joystick.targets| == 9
  {
    match control.action
    case Tap(at) => if FiresTap(plan, control, input, held) then TapFrames(point.value, at) else []
    case Steer(joystick, _) => TurnFrames(joystick, current, Toggled(plan, control, current, input, held))
    case _ => []
  }

  lemma FiresNothing(plan: Plan, control: Control, point: Option<ContactId>, current: Direction, input: Input,
                     held: Held)
    requires control.action.Tap? ==> point.Some?
    requires control.action.Steer? ==> |control.action.joystick.targets| == 9
    ensures !FiresToggle(control, input) ==> Toggled(plan, control, current, input, held) == current
    ensures (!FiresTap(plan, control, input, held) && Toggled(plan, control, current, input, held) == current) ==>
              Fired(plan, control, point, current, input, held) == []
  {
  }

  ghost predicate Fireable(plan: Plan, points: seq<Option<ContactId>>) {
    && |points| == |plan.controls|
    && forall i | 0 <= i < |plan.controls| ::
         && (plan.controls[i].action.Tap? ==> points[i].Some?)
         && (plan.controls[i].action.Steer? ==> |plan.controls[i].action.joystick.targets| == 9)
  }

  lemma LaidOutFireable(plan: Plan, points: seq<Option<ContactId>>, cursor: ContactId)
    requires plan.Valid() && LaidOut(plan.controls, points, cursor)
    ensures Fireable(plan, points)
  {
  }

  function FiredUpTo(plan: Plan, points: seq<Option<ContactId>>, directions: seq<Direction>, input: Input, held: Held,
                     n: nat): seq<Frame>
    requires Fireable(plan, points) && n <= |plan.controls| == |directions|
  {
    if n == 0 then []
    else FiredUpTo(plan, points, directions, input, held, n - 1)
         + Fired(plan, plan.controls[n - 1], points[n - 1], directions[n - 1], input, held)
  }

  // What firing costs.
  function FireStep(plan: Plan, control: Control, current: Direction, input: Input, held: Held): seq<int> {
    match control.action
    case Tap(_) => if FiresTap(plan, control, input, held) then [1, -1] else []
    case Steer(_, _) =>
      if FiresToggle(control, input) then [StickStep(current, Toggled(plan, control, current, input, held))] else []
    case _ => []
  }

  lemma FireStepIs(plan: Plan, control: Control, current: Direction, input: Input, held: Held)
    ensures FireStep(plan, control, current, input, held)
         == if FiresTap(plan, control, input, held) then [1, -1]
            else if FiresToggle(control, input)
            then [StickStep(current, Toggled(plan, control, current, input, held))] else []
  {
  }

  function FireSteps(plan: Plan, directions: seq<Direction>, input: Input, held: Held): (lists: seq<seq<int>>)
    requires |plan.controls| == |directions|
    ensures |lists| == |plan.controls|
  {
    seq(|directions|, i requires 0 <= i < |directions| => FireStep(plan, plan.controls[i], directions[i], input, held))
  }

  lemma FireStepAt(plan: Plan, directions: seq<Direction>, input: Input, held: Held, i: nat)
    requires i < |plan.controls| == |directions|
    ensures FireSteps(plan, directions, input, held)[i]
         == FireStep(plan, plan.controls[i], directions[i], input, held)
  {
  }

  ghost predicate SomeTapFires(plan: Plan, input: Input, held: Held, n: nat)
    requires n <= |plan.controls|
  {
    exists i :: 0 <= i < n && FiresTap(plan, plan.controls[i], input, held)
  }

  // A button fires taps only: it runs out of slots exactly if a tap fires on a full device.
  lemma ButtonFires(plan: Plan, directions: seq<Direction>, button: Button, held: Held, n: nat, count: nat,
                    capacity: nat)
    requires n <= |plan.controls| == |directions|
    ensures var steps := Chain(FireSteps(plan, directions, ButtonInput(button), held), n);
            && Total(steps) == 0
            && (Overflows(count, steps, capacity) <==>
                  count >= capacity && SomeTapFires(plan, ButtonInput(button), held, n))
  {
    hide FiresTap, Toggled, StickStep, Overflows, Total, Chain;
    var lists := FireSteps(plan, directions, ButtonInput(button), held);
    forall i | 0 <= i < n
      ensures lists[i] == if FiresTap(plan, plan.controls[i], ButtonInput(button), held) then [1, -1] else []
    {
      TapsOnly(plan, plan.controls[i], directions[i], button, held);
    }
    ChainUpDown(lists, n, count, capacity);
  }

  lemma TapsOnly(plan: Plan, control: Control, current: Direction, button: Button, held: Held)
    ensures FireStep(plan, control, current, ButtonInput(button), held)
         == if FiresTap(plan, control, ButtonInput(button), held) then [1, -1] else []
  {
  }

  // The joystick directions a successful pass leaves.
  ghost predicate PassedFrom(plan: Plan, before: seq<Direction>, held: Held, passed: seq<Direction>)
    requires |plan.layerControls| == KEY_COUNT
  {
    && |plan.controls| == |before| == |passed|
    && forall i | 0 <= i < |plan.controls| && plan.controls[i].action.Steer? ::
         passed[i] == DirectionWanted(plan, plan.controls[i], before[i], held)
  }

  lemma GrantedPassed(plan: Plan, before: seq<Direction>, active: seq<bool>, directions: seq<Direction>, held: Held,
                      desired: seq<bool>, desiredDirections: seq<Direction>)
    requires plan.Valid() && |plan.controls| == |before| == |active| == |directions| == |desired| == |desiredDirections|
    requires AllDesired(plan, before, held, desired, desiredDirections)
    requires GrantedUpTo(plan.controls, active, directions, desired, desiredDirections, |plan.controls|)
    ensures PassedFrom(plan, before, held, directions)
  {
  }

  function ToggledUpTo(plan: Plan, directions: seq<Direction>, input: Input, held: Held, n: nat): (r: seq<Direction>)
    requires n <= |plan.controls| == |directions|
    ensures |r| == |directions|
  {
    seq(|directions|, i requires 0 <= i < |directions| =>
      if i < n then Toggled(plan, plan.controls[i], directions[i], input, held) else directions[i])
  }

  lemma ToggledStep(plan: Plan, directions: seq<Direction>, input: Input, held: Held, n: nat)
    requires n < |plan.controls| == |directions|
    ensures ToggledUpTo(plan, directions, input, held, n)[n] == directions[n]
    ensures ToggledUpTo(plan, directions, input, held, n + 1)
         == ToggledUpTo(plan, directions, input, held,
                        n)[n := Toggled(plan, plan.controls[n], directions[n], input, held)]
  {
  }

  lemma ToggledNone(plan: Plan, directions: seq<Direction>, input: Input, held: Held)
    requires |plan.controls| == |directions|
    ensures ToggledUpTo(plan, directions, input, held, 0) == directions
  {
  }

  lemma SettledOne(plan: Plan, active: seq<bool>, directions: seq<Direction>, held: Held, i: nat)
    requires plan.Valid() && i < |plan.controls| == |active| == |directions|
             && AllSettled(plan, active, directions, held)
    ensures SettledControl(plan, plan.controls[i], active[i], directions[i], held)
  {
  }

  // Only available keys toggle, so a settled control stays settled.
  lemma ToggledSettled(plan: Plan, control: Control, active: bool, current: Direction, input: Input, held: Held,
                       active': bool)
    requires plan.Valid() && SettledControl(plan, control, active, current, held)
    requires control.action.Hold? ==> active' == active
    ensures SettledControl(plan, control, active', Toggled(plan, control, current, input, held), held)
  {
  }

  lemma Resettle(plan: Plan, active: seq<bool>, directions: seq<Direction>, held: Held, i: nat,
                 active': seq<bool>, directions': seq<Direction>)
    requires plan.Valid() && i < |plan.controls| == |active| == |directions| == |active'| == |directions'|
    requires AllSettled(plan, active, directions, held)
    requires active' == active[i := active'[i]] && directions' == directions[i := directions'[i]]
    requires SettledControl(plan, plan.controls[i], active[i], directions[i], held) ==>
               SettledControl(plan, plan.controls[i], active'[i], directions'[i], held)
    ensures AllSettled(plan, active', directions', held)
  {
  }
}
