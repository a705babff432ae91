// A handoff that fits the device before and after, and still needs one slot more on the way
// (crates/wroid-inject/src/game_session.rs), on a device of any size. With the left and the right key
// held the stick rests, and as many fire keys are held as there are slots. A layer that takes the right
// key and the first fire key turns the stick to the left, which the pass does before it lifts the contact
// of the fire key.

module OpposedHandoff {
  import opened Wrappers
  import opened Touch
  import opened AimControl
  import opened Controls
  import opened Ownership
  import opened Slots

  const LEFT_KEY: Key := 1
  const RIGHT_KEY: Key := 3
  const LAYER_KEY: Key := 4
  const FIRST_FIRE: Key := 5
  const TO_THE_LEFT := NEUTRAL.(left := true)
  const BOTH_WAYS := NEUTRAL.(left := true, right := true)
  const SPOT := Point(1, 1)

  // As many as there can be slots.
  type Size = n: nat | 1 <= n <= MAX_SLOT_COUNT witness 1

  // The stick, n fire contacts, and the two taps of the layer.
  function ControlAt(n: Size, i: nat): Control {
    if i == 0 then
      Control(BASE, None, map[], OnCluster(0, LEFT_KEY, 2, RIGHT_KEY),
              Steer(Joystick(1, seq(9, k => Point(0, 0))), HoldMode))
    else if i <= n then Control(BASE, None, map[], OnKey(FIRST_FIRE + i - 1), Hold(SPOT))
    else Control(1, None, map[], OnKey(if i == n + 1 then RIGHT_KEY else FIRST_FIRE), Tap(SPOT))
  }

  function AllControls(n: Size): seq<Control> {
    seq(n + 3, i requires 0 <= i < n + 3 => ControlAt(n, i))
  }

  function OpposedPlan(n: Size): Plan {
    Plan(AllControls(n), seq(KEY_COUNT, k => if k == LAYER_KEY then Some(LayerControl(0, HoldLayer)) else None), {},
         Config(2, 2, n))
  }

  function Points(n: Size): seq<Option<ContactId>> {
    seq(n + 3, i requires 0 <= i < n + 3 => if i == 0 then None else Some(i + 1))
  }

  function Cursor(n: Size): ContactId { n + 4 }

  function Active(n: Size): seq<bool> { seq(n + 3, i => i <= n) }

  function Directions(n: Size): seq<Direction> { seq(n + 3, i => if i == 0 then BOTH_WAYS else NEUTRAL) }

  function NoAims(n: Size): seq<Option<AimController>> { seq(n + 3, i => None) }

  predicate Between(low: nat, c: nat, high: nat) { low <= c < high }

  function Range(low: nat, high: nat): set<ContactId> {
    set c: ContactId | 0 <= c < U16_LIMIT && Between(low, c, high)
  }

  lemma {:induction false} RangeSize(low: nat, high: nat)
    requires low <= high < U16_LIMIT
    ensures |Range(low, high)| == high - low
  {
    if low < high {
      RangeSize(low, high - 1);
      assert Range(low, high) == Range(low, high - 1) + {high - 1};
    }
  }

  function FireContacts(n: Size): Contacts {
    var ids := Range(2, n + 2);
    map c | c in ids :: SPOT
  }

  predicate IsHeld(key: Key, n: nat) { key == LEFT_KEY || key == RIGHT_KEY || FIRST_FIRE <= key < FIRST_FIRE + n }

  function KeysHeld(n: nat): set<Key> {
    set key: Key | 0 <= key < KEY_COUNT && IsHeld(key, n)
  }

  function HeldBefore(n: Size): Held { Held(KeysHeld(n), {}, {}, {}) }

  function HeldThen(n: Size): Held { Held(KeysHeld(n) + {LAYER_KEY}, {}, {}, {0}) }

  function Wanted(n: Size): seq<bool> { seq(n + 3, i => i <= n && i != 1) }

  function WantedDirections(n: Size): seq<Direction> { seq(n + 3, i => if i == 0 then TO_THE_LEFT else NEUTRAL) }

  // The left key, the right key and then one fire key after the other.
  function Presses(n: nat): seq<HostInput>
    requires n <= MAX_SLOT_COUNT
  {
    if n == 0 then [KeyEdge(LEFT_KEY, true), KeyEdge(RIGHT_KEY, true)]
    else Presses(n - 1) + [KeyEdge(FIRST_FIRE + n - 1, true)]
  }

  // One more key, if it is not the layer's.
  lemma OneMoreKey(n: Size, history: seq<HostInput>, keys: set<Key>, key: Key)
    requires HeldAfter(OpposedPlan(n), history) == Held(keys, {}, {}, {}) && key != LAYER_KEY
    ensures HeldAfter(OpposedPlan(n), history + [KeyEdge(key, true)]) == Held(keys + {key}, {}, {}, {})
  {
  }

  lemma {:induction false} HeldAfterPresses(n: Size, k: nat)
    requires k <= MAX_SLOT_COUNT
    ensures HeldAfter(OpposedPlan(n), Presses(k)) == Held(KeysHeld(k), {}, {}, {})
  {
    if k == 0 {
      assert HeldAfter(OpposedPlan(n), []) == Held({}, {}, {}, {});
      hide HeldAfter, OpposedPlan;
      OneMoreKey(n, [], {}, LEFT_KEY);
      OneMoreKey(n, [] + [KeyEdge(LEFT_KEY, true)], {} + {LEFT_KEY}, RIGHT_KEY);
      assert [] + [KeyEdge(LEFT_KEY, true)] + [KeyEdge(RIGHT_KEY, true)] == Presses(0);
      assert {} + {LEFT_KEY} + {RIGHT_KEY} == KeysHeld(0);
    } else {
      hide HeldAfter, OpposedPlan;
      HeldAfterPresses(n, k - 1);
      OneMoreKey(n, Presses(k - 1), KeysHeld(k - 1), FIRST_FIRE + k - 1);
      assert KeysHeld(k - 1) + {FIRST_FIRE + k - 1} == KeysHeld(k);
    }
  }

  // What leads there is those keys going down, and then the layer's.
  lemma History(n: Size)
    ensures HeldAfter(OpposedPlan(n), Presses(n)) == HeldBefore(n)
    ensures HeldAfter(OpposedPlan(n), Presses(n) + [KeyEdge(LAYER_KEY, true)]) == HeldThen(n)
  {
    HeldAfterPresses(n, n);
    HeldAfterOne(OpposedPlan(n), Presses(n), KeyEdge(LAYER_KEY, true));
    assert {} + {0} == HeldThen(n).layers;
  }

  lemma PlanIsValid(n: Size)
    ensures OpposedPlan(n).Valid() && LaidOut(AllControls(n), Points(n), Cursor(n))
  {
  }

  lemma GroundedBefore(n: Size)
    ensures AllGrounded(AllControls(n), Points(n), Cursor(n), Active(n), Directions(n), NoAims(n), FireContacts(n))
  {
    forall c | c in FireContacts(n) ensures OwnedBy(AllControls(n), Points(n), c) {
      assert c in ContactsOf(AllControls(n)[c - 1], Points(n)[c - 1]);
    }
  }

  // Without layers nobody owns an input ...
  lemma OwnerBefore(n: Size, input: Input)
    ensures Owner(AllControls(n), {}, input) == None
  {
    OwnerIsGreatest(AllControls(n), n + 3, {}, input);
  }

  // ... and then the layer owns the right key and the first fire key.
  lemma OwnerThen(n: Size, input: Input)
    ensures Owner(AllControls(n), {0}, input)
         == if input == KeyInput(RIGHT_KEY) || input == KeyInput(FIRST_FIRE) then Some(1) else None
  {
    var controls := AllControls(n);
    OwnerIsGreatest(controls, n + 3, {0}, input);
    assert Claims(controls[n + 1], {0}, KeyInput(RIGHT_KEY)) && Claims(controls[n + 2], {0}, KeyInput(FIRST_FIRE));
  }

  lemma SettledBefore(n: Size)
    ensures AllSettled(OpposedPlan(n), Active(n), Directions(n), HeldBefore(n))
  {
    hide Owner;
    var plan := OpposedPlan(n);
    forall i | 0 <= i < n + 3
      ensures SettledControl(plan, plan.controls[i], Active(n)[i], Directions(n)[i], HeldBefore(n))
    {
      forall key: Key { OwnerBefore(n, KeyInput(key)); }
    }
  }

  lemma DesiredThen(n: Size)
    ensures AllDesired(OpposedPlan(n), Directions(n), HeldThen(n), Wanted(n), WantedDirections(n))
  {
    hide Owner;
    var plan := OpposedPlan(n);
    forall i | 0 <= i < n + 3
      ensures Desires(plan, plan.controls[i], Directions(n)[i], HeldThen(n), Wanted(n)[i], WantedDirections(n)[i])
    {
      forall key: Key { OwnerThen(n, KeyInput(key)); }
    }
  }

  // The stick comes in for the first fire contact.
  lemma RoomThen(n: Size)
    ensures Room(AllControls(n), Points(n), FireContacts(n).Keys, Wanted(n), WantedDirections(n))
            == Range(3, n + 2) + {1}
  {
    hide ManagedUpTo, PressedUpTo;
    var controls, points := AllControls(n), Points(n);
    var managed := ManagedUpTo(controls, points, n + 3);
    var pressed := PressedUpTo(controls, points, Wanted(n), WantedDirections(n), n + 3);
    forall c: ContactId
      ensures c in managed <==> 1 <= c < n + 2
      ensures c in pressed <==> c == 1 || 3 <= c < n + 2
    {
      ManagedHas(controls, points, n + 3, c);
      PressedHas(controls, points, Wanted(n), WantedDirections(n), n + 3, c);
      if 1 <= c < n + 2 {
        assert c in ContactsOf(controls[c - 1], points[c - 1]);
        assert c != 2 ==> Pressed(controls[c - 1], Wanted(n)[c - 1], WantedDirections(n)[c - 1]);
      }
    }
  }

  // The first step of the pass already puts the stick down.
  lemma StepsOverflow(n: Size)
    ensures Overflows(n, PassSteps(AllControls(n), Active(n), Directions(n), Wanted(n), WantedDirections(n)), n)
  {
  }

  // Settled and grounded before, wanting exactly as many contacts afterwards as there are slots; yet the
  // steps of the pass overflow.
  lemma Overflowing(n: Size)
    ensures var plan, contacts := OpposedPlan(n), FireContacts(n);
            var room := Room(plan.controls, Points(n), contacts.Keys, Wanted(n), WantedDirections(n));
            && plan.Valid() && LaidOut(plan.controls, Points(n), Cursor(n))
            && AllGrounded(plan.controls, Points(n), Cursor(n), Active(n), Directions(n), NoAims(n), contacts)
            && AllSettled(plan, Active(n), Directions(n), HeldBefore(n))
            && AllDesired(plan, Directions(n), HeldThen(n), Wanted(n), WantedDirections(n))
            && |contacts| == |room| == plan.config.slotCount == n
            && Overflows(|contacts|, PassSteps(plan.controls, Active(n), Directions(n), Wanted(n), WantedDirections(n)),
                         plan.config.slotCount)
  {
    hide AllGrounded, AllSettled, AllDesired, LaidOut, Plan.Valid, Overflows, PassSteps, Room, ControlAt;
    PlanIsValid(n);
    GroundedBefore(n);
    SettledBefore(n);
    DesiredThen(n);
    RoomThen(n);
    RangeSize(3, n + 2);
    RangeSize(2, n + 2);
    assert FireContacts(n).Keys == Range(2, n + 2);
    StepsOverflow(n);
  }
}
