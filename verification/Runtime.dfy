// UnifiedRuntime: keyboard and mouse transitions, and the reconcile pass that drives touch
// contacts towards what the held inputs ask for (crates/wroid-inject/src/game_session.rs).

module Runtime {
  import opened Wrappers
  import opened Touch
  import opened Injector
  import opened Controls
  import opened ContactDrivers
  import opened AimControl
  import opened Asked
  import opened Ownership
  import opened Slots

  datatype Transition = Press | Release | Repeat

  // `due` says of which controllers a pause is over by the time of the motion.
  datatype MouseEvent =
    | Motion(dx: int, dy: int, due: seq<bool>)
    | ButtonChange(button: Button, transition: Transition)
    | Wheel

  const RIGHT: Button := 1

  type Reply = Result<bool, EngineError>

  class UnifiedRuntime {
    const plan: Plan
    const engine: TouchEngine
    const pointContacts: seq<Option<ContactId>>
    const cursorContact: ContactId
    var directions: seq<Direction>
    var desiredDirections: seq<Direction>
    var activeBindings: seq<bool>
    var desiredBindings: seq<bool>
    var selected: seq<Option<LayerId>>
    var aims: seq<Option<AimController>>
    var activeLayers: set<nat>
    var heldKeys: set<Key>
    var heldModifiers: set<Key>
    var heldButtons: set<Button>
    // Everything that happened since the runtime was built.
    ghost var history: seq<HostInput>
    // The ownership changes of the last reconcile pass, and where it stops giving up.
    ghost var handoff: seq<Snapshot>
    ghost var pivot: nat
    // The directions that pass settled on, before anything was dispatched.
    ghost var passed: seq<Direction>
    // What had been sent when the last pass was over, and when the aim toggles after it were.
    ghost var afterPass: seq<Frame>
    ghost var afterAims: seq<Frame>

    function HeldNow(): Held
      reads this
    {
      Held(heldKeys, heldModifiers, heldButtons, activeLayers)
    }

    ghost predicate Shape()
      reads this
    {
      && plan.Valid()
      && LaidOut(plan.controls, pointContacts, cursorContact)
      && |pointContacts| == |plan.controls|
      && |directions| == |desiredDirections| == |activeBindings| == |desiredBindings| == |aims| == |plan.controls|
      && |selected| == PHYSICAL_INPUT_COUNT
      && AimsFit(plan.controls, aims)
    }

    ghost predicate Valid()
      reads this, engine, engine.injector, engine.injector.sink
    {
      && Shape()
      && engine.Valid()
      && engine.injector.config == plan.config
      && HeldNow() == HeldAfter(plan, history)
    }

    ghost predicate Grounded()
      requires Shape()
      reads this, engine
    {
      AllGrounded(plan.controls, pointContacts, cursorContact, activeBindings, directions, aims, engine.contacts)
    }

    // Every control already is what the held inputs ask for.
    ghost predicate Settled()
      requires Shape()
      reads this
    {
      AllSettled(plan, activeBindings, directions, HeldNow())
    }

    // What the history of inputs asks for is on the screen.
    ghost predicate FollowsHistory()
      requires Shape()
      reads this, engine
    {
      AllFollow(plan, history, pointContacts, directions, engine.contacts)
    }

    lemma ShowsHistory()
      requires Valid() && Grounded() && Settled()
      ensures plan.Prepared() ==> FollowsHistory()
    {
      hide TouchEngine.Valid, AllGrounded, AllSettled, LaidOut, HeldAfter, Plan.Prepared, AllFollow, AimsFit;
      if plan.Prepared() {
        SettledFollows(plan, history, pointContacts, cursorContact, activeBindings, directions, aims, engine.contacts);
      }
    }

    ghost function View(): Snapshot
      reads this, engine
    {
      Snapshot(activeBindings, directions, engine.contacts.Keys)
    }

    constructor (plan: Plan, engine: TouchEngine)
      requires plan.Valid() && engine.Valid() && engine.contacts == map[] && engine.injector.config == plan.config
      ensures this.plan == plan && this.engine == engine
      // The contact counter saturates; the runtime starts well exactly if the ids it hands out differ.
      ensures Valid() <==> IdsFit(plan.controls)
      ensures Valid() ==> Grounded() && Settled()
      ensures history == [] && HeldNow() == NOTHING_HELD && engine.contacts == map[]
      ensures AllIdle(aims)
    {
      hide TouchEngine.Valid, AllGrounded, SettledControl, LaidOut, IdsFit, HighestPlanned, CountPoints;
      var n := |plan.controls|;
      var points, cursor := AllocatePoints(plan.controls);
      this.plan := plan;
      this.engine := engine;
      pointContacts := points;
      cursorContact := cursor;
      directions := seq(n, i => NEUTRAL);
      desiredDirections := seq(n, i => NEUTRAL);
      activeBindings := seq(n, i => false);
      desiredBindings := seq(n, i => false);
      selected := seq(PHYSICAL_INPUT_COUNT, k => None);
      aims := seq(n, i requires 0 <= i < n =>
        if plan.controls[i].action.Aim? then Some(NewAim(plan.controls[i].action.aim)) else None);
      activeLayers, heldKeys, heldModifiers, heldButtons := {}, {}, {}, {};
      history, handoff, pivot, passed := [], [], 0, [];
      afterPass, afterAims := [], [];
      new;
      if LaidOut(plan.controls, pointContacts, cursorContact) {
        FreshGrounded(plan, pointContacts, cursorContact, activeBindings, directions, aims);
        FreshSettled(plan, activeBindings, directions);
      }
    }

    // -------------------------------------------------------------------------------------
    // refresh_selected_input_layers

    ghost predicate SelectedIs(n: nat)
      requires |selected| == PHYSICAL_INPUT_COUNT && n <= |plan.controls|
      reads this
    {
      forall k | 0 <= k < PHYSICAL_INPUT_COUNT :: selected[k] == OwnerUpTo(plan.controls, n, activeLayers, InputAt(k))
    }

    // select_input_layer
    method SelectInputLayer(control: Control, input: Input)
      requires |selected| == PHYSICAL_INPUT_COUNT
      modifies this`selected
      ensures selected == old(selected)[InputIndex(input) := Raised(control, activeLayers,
                                                                    old(selected)[InputIndex(input)])]
    {
      if !LayerActive(control.layer, activeLayers) {
        return;
      }
      var k := InputIndex(input);
      if selected[k].None? || control.layer > selected[k].value {
        selected := selected[k := Some(control.layer)];
      }
    }

    method SelectControl(i: nat)
      requires |selected| == PHYSICAL_INPUT_COUNT && i < |plan.controls| && SelectedIs(i)
      modifies this`selected
      ensures |selected| == PHYSICAL_INPUT_COUNT && SelectedIs(i + 1)
    {
      var control := plan.controls[i];
      if control.layer == BASE {
        return;
      }
      var inputs := BoundInputs(control.binding);
      var a := 0;
      while a < |inputs|
        invariant 0 <= a <= |inputs| && |selected| == PHYSICAL_INPUT_COUNT
        invariant forall k | 0 <= k < PHYSICAL_INPUT_COUNT ::
                    selected[k] == if InputAt(k) in inputs[..a] then Raised(control, activeLayers, old(selected)[k])
                                   else old(selected)[k]
      {
        ghost var before := selected;
        SelectInputLayer(control, inputs[a]);
        assert inputs[..a + 1] == inputs[..a] + [inputs[a]];
        a := a + 1;
      }
      forall k | 0 <= k < PHYSICAL_INPUT_COUNT
        ensures selected[k] == OwnerUpTo(plan.controls, i + 1, activeLayers, InputAt(k))
      {
        BindsIffBound(control, InputAt(k));
        assert inputs[..|inputs|] == inputs;
      }
    }

    method RefreshSelectedInputLayers()
      modifies this`selected
      ensures |selected| == PHYSICAL_INPUT_COUNT && SelectedIs(|plan.controls|)
    {
      selected := seq(PHYSICAL_INPUT_COUNT, k => None);
      var i := 0;
      while i < |plan.controls|
        invariant 0 <= i <= |plan.controls|
        invariant |selected| == PHYSICAL_INPUT_COUNT && SelectedIs(i)
      {
        SelectControl(i);
        i := i + 1;
      }
    }

    // binding_available, answered from the table.
    predicate IsAvailable(control: Control, input: Input)
      requires |selected| == PHYSICAL_INPUT_COUNT
      reads this
    {
      control.Available(input, HeldNow(), selected[InputIndex(input)])
    }

    lemma AvailableFromTable(control: Control, input: Input)
      requires |selected| == PHYSICAL_INPUT_COUNT && SelectedIs(|plan.controls|)
      ensures IsAvailable(control, input) == BindingAvailable(plan.controls, control, input, HeldNow())
    {
    }

    // -------------------------------------------------------------------------------------
    // The first loop of reconcile_continuous.

    ghost predicate DesiredAt(i: nat)
      requires Shape() && i < |plan.controls|
      reads this
    {
      Desires(plan, plan.controls[i], directions[i], HeldNow(), desiredBindings[i], desiredDirections[i])
    }

    predicate IsKeyWanted(control: Control, key: Key)
      requires |selected| == PHYSICAL_INPUT_COUNT && |plan.layerControls| == KEY_COUNT
      reads this
    {
      plan.layerControls[key].None? && key in heldKeys && IsAvailable(control, KeyInput(key))
    }

    method DesireDirection(i: nat) returns (desired: Direction)
      requires Shape() && i < |plan.controls| && SelectedIs(|plan.controls|)
      requires plan.controls[i].action.Steer? && plan.controls[i].binding.OnCluster?
      ensures desired == DirectionWanted(plan, plan.controls[i], directions[i], HeldNow())
    {
      var control := plan.controls[i];
      var OnCluster(up, left, down, right) := control.binding;
      AvailableFromTable(control, KeyInput(up));
      AvailableFromTable(control, KeyInput(left));
      AvailableFromTable(control, KeyInput(down));
      AvailableFromTable(control, KeyInput(right));
      desired := directions[i];
      if control.action.mode == HoldMode {
        desired := Direction(IsKeyWanted(control, up), IsKeyWanted(control, left),
                             IsKeyWanted(control, down), IsKeyWanted(control, right));
      } else {
        desired := desired.(up := desired.up && IsAvailable(control, KeyInput(up)));
        desired := desired.(left := desired.left && IsAvailable(control, KeyInput(left)));
        desired := desired.(down := desired.down && IsAvailable(control, KeyInput(down)));
        desired := desired.(right := desired.right && IsAvailable(control, KeyInput(right)));
      }
    }

    method DesireHold(i: nat) returns (wanted: bool)
      requires Shape() && i < |plan.controls| && SelectedIs(|plan.controls|)
      requires plan.controls[i].action.Hold?
      ensures wanted == HoldWanted(plan, plan.controls[i], HeldNow())
    {
      var control := plan.controls[i];
      match control.binding
      case OnKey(key) =>
        AvailableFromTable(control, KeyInput(key));
        wanted := IsKeyWanted(control, key);
      case OnButton(button) =>
        AvailableFromTable(control, ButtonInput(button));
        wanted := button in heldButtons && IsAvailable(control, ButtonInput(button));
      case _ => wanted := false;
    }

    method DesireControl(i: nat)
      requires Shape() && i < |plan.controls| && SelectedIs(|plan.controls|)
      modifies this`desiredBindings, this`desiredDirections
      ensures Shape() && DesiredAt(i)
      ensures forall j | 0 <= j < |plan.controls| && j != i ::
                desiredBindings[j] == old(desiredBindings[j]) && desiredDirections[j] == old(desiredDirections[j])
    {
      var control := plan.controls[i];
      var wanted, direction := false, NEUTRAL;
      if control.action.Hold? {
        wanted := DesireHold(i);
      } else if control.action.Steer? && control.binding.OnCluster? {
        direction := DesireDirection(i);
        wanted := direction != NEUTRAL;
      }
      desiredBindings := desiredBindings[i := wanted];
      desiredDirections := desiredDirections[i := direction];
    }

    method ComputeDesired()
      requires Shape() && SelectedIs(|plan.controls|)
      modifies this`desiredBindings, this`desiredDirections
      ensures Shape()
      ensures AllDesired(plan, directions, HeldNow(), desiredBindings, desiredDirections)
    {
      var i := 0;
      while i < |plan.controls|
        invariant 0 <= i <= |plan.controls| && Shape()
        invariant forall j | 0 <= j < i ::
                    Desires(plan, plan.controls[j], directions[j], HeldNow(), desiredBindings[j], desiredDirections[j])
      {
        DesireControl(i);
        i := i + 1;
      }
    }

    // -------------------------------------------------------------------------------------
    // One control's step.

    // The device has a slot for every contact of the plan and for the cursor.
    ghost predicate Spacious()
      requires |pointContacts| == |plan.controls|
    {
      |Reserved(plan.controls, pointContacts, cursorContact)| <= plan.config.slotCount
    }

    lemma SpaciousRoom(i: nat, contact: ContactId)
      requires Valid() && Grounded() && Spacious() && i < |plan.controls|
      requires contact in ContactsOf(plan.controls[i], pointContacts[i])
      ensures Roomy(engine, contact)
    {
      hide TouchEngine.Valid, AllGrounded, LaidOut, Plan.Valid, HeldAfter, ContactsOf;
      GroundedReserved(plan.controls, pointContacts, cursorContact, activeBindings, directions, aims, engine.contacts);
      ReservedHas(plan.controls, pointContacts, |plan.controls|, i);
      RoomLeft(engine.contacts.Keys, Reserved(plan.controls, pointContacts, cursorContact), contact,
               plan.config.slotCount);
    }

    method SteerTo(i: nat, direction: Direction) returns (r: Reply)
      requires Valid() && Grounded() && i < |plan.controls| && plan.controls[i].action.Steer?
      modifies this`directions, this`activeBindings, engine, engine.injector, engine.injector.sink
      ensures Valid() && Grounded()
      ensures r.Ok? ==> directions == old(directions)[i := direction]
                        && activeBindings == old(activeBindings)[i := direction != NEUTRAL]
                        && (r.value <==> engine.contacts != old(engine.contacts))
      ensures r == Ok(false) ==> engine.injector.sink.batches == old(engine.injector.sink.batches)
      ensures r.Err? ==> directions == old(directions) && activeBindings == old(activeBindings)
                         && engine.contacts == old(engine.contacts) && engine.frames == old(engine.frames)
      ensures var stick := plan.controls[i].action.joystick;
              && (r.Ok? ==>
                    && PositionOf(engine.contacts, stick.contact) == stick.Target(direction)
                    && engine.frames == old(engine.frames) + TurnFrames(stick, old(directions)[i], direction))
              && SameOutside(old(engine.contacts), engine.contacts, {stick.contact})
              && SentOn(old(engine.frames), engine.frames, {stick.contact})
              && (r.Err? && (stick.Target(direction).Some? ==> old(Roomy(engine, stick.contact))) ==> DeviceRefused(r))
      ensures StepCounts(r.Ok?, DeviceRefused(r), StickStep(old(directions)[i], direction), |old(engine.contacts)|,
                         |engine.contacts|, plan.config.slotCount)
      ensures Spacious() && r.Err? ==> DeviceRefused(r)
      ensures DeviceRefused(r) ==> !engine.injector.sink.reliable
    {
      hide TouchEngine.Valid, AllGrounded, HeldAfter, LaidOut, Plan.Valid;
      hide StepCounts, StickStep, Roomy, Joystick.Target, SentOn, Spacious, SteerFrames;
      var stick := plan.controls[i].action.joystick;
      ghost var before, roomy := engine.contacts, Roomy(engine, stick.contact);
      PlannedAction(plan, i);
      GroundedOne(plan.controls, pointContacts, cursorContact, activeBindings, directions, aims, before, i);
      if Spacious() {
        SpaciousRoom(i, stick.contact);
      }
      RoomyMeans(engine, stick.contact);
      r := ApplyJoystick(engine, stick, direction);
      SteerCounts(stick, directions[i], direction, before, engine.contacts, r.Ok?, DeviceRefused(r), roomy,
                  plan.config.slotCount);
      if r.Err? {
        return;
      }
      directions := directions[i := direction];
      activeBindings := activeBindings[i := direction != NEUTRAL];
      Reground(plan.controls, pointContacts, cursorContact, i, old(activeBindings), old(directions), aims, before,
               activeBindings, directions, aims, engine.contacts);
    }

    method PressTo(i: nat, pressed: bool) returns (r: Reply)
      requires Valid() && Grounded() && i < |plan.controls| && plan.controls[i].action.Hold?
      requires activeBindings[i] != pressed
      modifies this`activeBindings, engine, engine.injector, engine.injector.sink
      ensures Valid() && Grounded()
      ensures r.Ok? ==> r.value && activeBindings == old(activeBindings)[i := pressed]
      ensures r.Err? ==> activeBindings == old(activeBindings) && engine.contacts == old(engine.contacts)
      ensures SameOutside(old(engine.contacts), engine.contacts, {pointContacts[i].value})
      ensures r.Err? && (pressed ==> old(Roomy(engine, pointContacts[i].value))) ==> DeviceRefused(r)
      ensures SentOn(old(engine.frames), engine.frames, {pointContacts[i].value})
      ensures StepCounts(r.Ok?, DeviceRefused(r), if pressed then 1 else -1, |old(engine.contacts)|, |engine.contacts|,
                         plan.config.slotCount)
      ensures Spacious() && r.Err? ==> DeviceRefused(r)
      ensures DeviceRefused(r) ==> !engine.injector.sink.reliable
    {
      hide TouchEngine.Valid, AllGrounded, HeldAfter, LaidOut, Plan.Valid, SentOn, Spacious;
      ghost var before := engine.contacts;
      PlannedAction(plan, i);
      GroundedOne(plan.controls, pointContacts, cursorContact, activeBindings, directions, aims, before, i);
      if Spacious() {
        SpaciousRoom(i, pointContacts[i].value);
      }
      r := SetHold(engine, pointContacts[i].value, plan.controls[i].action.point, pressed);
      if r.Err? {
        return;
      }
      HoldCounts(pointContacts[i].value, pressed, before, engine.contacts);
      activeBindings := activeBindings[i := pressed];
      Reground(plan.controls, pointContacts, cursorContact, i, old(activeBindings), directions, aims, before,
               activeBindings, directions, aims, engine.contacts);
    }

    // -------------------------------------------------------------------------------------
    // The other loops of reconcile_continuous.

    ghost function Managed(): set<ContactId>
      requires Shape()
      reads this
    {
      ManagedUpTo(plan.controls, pointContacts, |plan.controls|)
    }

    lemma ManagedContact(i: nat)
      requires Shape() && i < |plan.controls|
      requires plan.controls[i].action.Hold? || plan.controls[i].action.Steer?
      ensures ContactsOf(plan.controls[i], pointContacts[i]) <= Managed()
    {
      forall c | c in ContactsOf(plan.controls[i], pointContacts[i]) ensures c in Managed() {
        ManagedHas(plan.controls, pointContacts, |plan.controls|, c);
      }
    }

    // The handoff log ends in the present.
    ghost predicate Logged()
      requires Shape()
      reads this, engine
    {
      && pivot < |handoff| && handoff[|handoff| - 1] == View()
      && SnapshotsFit(plan.controls, handoff)
      && ShrinksThenGrows(plan.controls, handoff, pivot)
    }

    // Logs that something was given up, or taken.
    ghost method LogShrink(tame: bool)
      requires Shape() && handoff != [] && pivot == |handoff| - 1 && SnapshotsFit(plan.controls, handoff)
      requires ShrinksThenGrows(plan.controls, handoff, pivot) && Owns(plan.controls, View(), handoff[pivot])
      requires tame ==> TouchesShrinkThenGrow(handoff, pivot) && View().touching <= handoff[pivot].touching
      modifies this`handoff, this`pivot
      ensures Logged() && pivot == |handoff| - 1 && handoff == old(handoff) + [View()]
      ensures tame ==> TouchesShrinkThenGrow(handoff, pivot)
    {
      hide ShrinksThenGrows, TouchesShrinkThenGrow, Owns, LaidOut, Plan.Valid;
      AppendShrink(plan.controls, handoff, View());
      handoff, pivot := handoff + [View()], |handoff|;
    }

    ghost method LogGrow(tame: bool)
      requires Shape() && pivot < |handoff| && SnapshotsFit(plan.controls, handoff)
      requires ShrinksThenGrows(plan.controls, handoff, pivot) && Owns(plan.controls, handoff[|handoff| - 1], View())
      requires tame ==> TouchesShrinkThenGrow(handoff, pivot) && handoff[|handoff| - 1].touching <= View().touching
      modifies this`handoff
      ensures Logged() && handoff == old(handoff) + [View()]
      ensures tame ==> TouchesShrinkThenGrow(handoff, pivot)
    {
      hide ShrinksThenGrows, TouchesShrinkThenGrow, Owns, LaidOut, Plan.Valid;
      AppendGrow(plan.controls, handoff, pivot, View());
      handoff := handoff + [View()];
    }

    method ReleaseJoystick(i: nat, ghost tame: bool) returns (r: Reply)
      requires Valid() && Grounded() && Logged() && pivot == |handoff| - 1 && i < |plan.controls|
      requires tame ==> TouchesShrinkThenGrow(handoff, pivot)
      requires tame && plan.controls[i].action.Steer? ==> !directions[i].Opposed()
      modifies this`directions, this`activeBindings, this`handoff, this`pivot, engine, engine.injector
      modifies engine.injector.sink
      ensures Valid() && Grounded() && Logged() && pivot == |handoff| - 1 && old(handoff) <= handoff
      ensures tame ==> TouchesShrinkThenGrow(handoff, pivot) && (r.Err? ==> DeviceRefused(r))
      ensures r.Err? ==> directions == old(directions)
      ensures HoldsKept(plan.controls, old(activeBindings), activeBindings)
      ensures SameOutside(old(engine.contacts), engine.contacts, Managed())
      ensures SentOn(old(engine.frames), engine.frames, Managed())
      ensures r == Ok(false) ==> engine.contacts == old(engine.contacts)
                                 && engine.injector.sink.batches == old(engine.injector.sink.batches)
      ensures var current := old(directions)[i];
              var kept := Retained(plan.controls[i], current, desiredDirections[i]);
              && (r.Ok? ==> directions == old(directions)[i := kept])
              && (kept == current ==> r == Ok(false) && View() == old(View()) && handoff == old(handoff))
              // Apart from the device, it fails exactly where letting go puts a resting stick down on a full
              // device.
              && (r.Err? && !DeviceRefused(r) <==>
                    current.Rests() && !kept.Rests() && |old(engine.contacts)| >= plan.config.slotCount)
              && StepCounts(r.Ok?, DeviceRefused(r), StickStep(current, kept), |old(engine.contacts)|,
                            |engine.contacts|, plan.config.slotCount)
      ensures Spacious() && r.Err? ==> DeviceRefused(r)
      ensures DeviceRefused(r) ==> !engine.injector.sink.reliable
    {
      hide AimsFit, SameOutside;
      hide Owns;
      hide StepCounts, StickStep;
      hide SentOn, Spacious;
      hide TouchEngine.Valid, AllGrounded, ShrinksThenGrows, TouchesShrinkThenGrow, LaidOut, Plan.Valid;
      hide Joystick.Target;
      hide Direction.Opposed, HeldAfter, ManagedUpTo, TurnFrames, SnapshotsFit;
      ghost var current := directions[i];
      SentNothing(engine.frames, Managed());
      SameOutsideItself(engine.contacts, Managed());
      NoStep(current, |engine.contacts|, plan.config.slotCount);
      if !plan.controls[i].action.Steer? {
        return Ok(false);
      }
      var joystick := plan.controls[i].action.joystick;
      var retained := directions[i].Intersect(desiredDirections[i]);
      if directions[i] == retained {
        return Ok(false);
      }
      ManagedContact(i);
      GroundedOne(plan.controls, pointContacts, cursorContact, activeBindings, directions, aims, engine.contacts, i);
      if tame {
        TameRelease(joystick, directions[i], desiredDirections[i], engine.contacts);
      }
      r := SteerTo(i, retained);
      PressingStep(current, retained, r.Ok?, DeviceRefused(r), |old(engine.contacts)|, |engine.contacts|,
                   plan.config.slotCount);
      SentWider(old(engine.frames), engine.frames, {joystick.contact}, Managed());
      SameOutsideWider(old(engine.contacts), engine.contacts, {joystick.contact}, Managed());
      if r.Ok? {
        if tame {
          TameShrinks(joystick.contact, old(engine.contacts), engine.contacts);
        }
        OwnsTurn(plan.controls, View(), old(View()), i);
        LogShrink(tame);
      }
    }

    // Gives up the joystick directions nobody wants any more. A tame pass has no opposing keys.
    method ReleaseJoysticks(ghost tame: bool, ghost rest: seq<int>) returns (r: Reply)
      requires Valid() && Grounded() && Logged() && pivot == |handoff| - 1
      requires tame ==> Unopposed(plan.controls, directions) && TouchesShrinkThenGrow(handoff, pivot)
      modifies this`directions, this`activeBindings, this`handoff, this`pivot, engine, engine.injector
      modifies engine.injector.sink
      ensures Valid() && Grounded() && Logged() && pivot == |handoff| - 1 && old(handoff) <= handoff
      ensures tame ==> TouchesShrinkThenGrow(handoff, pivot) && (r.Err? ==> DeviceRefused(r))
      ensures r.Ok? ==> directions == RetainedUpTo(plan.controls, old(directions), desiredDirections, |plan.controls|)
      ensures HoldsKept(plan.controls, old(activeBindings), activeBindings)
      ensures SameOutside(old(engine.contacts), engine.contacts, Managed())
      ensures r == Ok(false) ==> engine.contacts == old(engine.contacts)
                                 && engine.injector.sink.batches == old(engine.injector.sink.batches)
      ensures AllWithin(plan.controls, old(directions), desiredDirections) ==>
                r == Ok(false) && View() == old(View()) && handoff == old(handoff)
      ensures SentOn(old(engine.frames), engine.frames, Managed())
      ensures Spacious() && r.Err? ==> DeviceRefused(r)
      // Apart from the device, it fails exactly where the steps run out of slots, whatever follows them.
      ensures r.Ok? ==>
                (Overflows(|old(engine.contacts)|,
                           ReleaseSteps(plan.controls, old(directions), desiredDirections) + rest,
                               plan.config.slotCount)
                 <==> Overflows(|engine.contacts|, rest, plan.config.slotCount))
      ensures r.Err? && !DeviceRefused(r) ==>
                Overflows(|old(engine.contacts)|,
                          ReleaseSteps(plan.controls, old(directions), desiredDirections) + rest, plan.config.slotCount)
      ensures DeviceRefused(r) ==> !engine.injector.sink.reliable
    {
      hide AimsFit, UnifiedRuntime.Logged, UnifiedRuntime.View, UnifiedRuntime.Grounded, ManagedUpTo;
      hide UnifiedRuntime.HeldNow, DeviceRefused, Direction.Rests, Direction.Opposed;
      hide RetainedUpTo, Retained;
      hide AllWithin;
      hide SameOutside, HoldsKept;
      hide StepCounts, StickStep;
      hide SentOn, Spacious, Overflows, ReleaseSteps, Ahead;
      hide TouchEngine.Valid, AllGrounded, ShrinksThenGrows, TouchesShrinkThenGrow, SnapshotsFit, HeldAfter, LaidOut;
      hide Plan.Valid;
      var submitted := false;
      ghost var steps := ReleaseSteps(plan.controls, old(directions), desiredDirections) + rest;
      SentNothing(engine.frames, Managed());
      SameOutsideItself(engine.contacts, Managed());
      NothingGivenUp(plan.controls, activeBindings, desiredBindings, directions, desiredDirections);
      HoldsKeptItself(plan.controls, activeBindings);
      AheadOfAll(steps, |engine.contacts|, plan.config.slotCount);
      var i := 0;
      while i < |plan.controls|
        invariant 0 <= i <= |plan.controls|
        invariant Valid() && Grounded() && Logged() && pivot == |handoff| - 1 && old(handoff) <= handoff
        invariant tame ==> TouchesShrinkThenGrow(handoff, pivot)
        invariant directions == RetainedUpTo(plan.controls, old(directions), desiredDirections, i)
        invariant HoldsKept(plan.controls, old(activeBindings), activeBindings)
        invariant SameOutside(old(engine.contacts), engine.contacts, Managed())
        invariant !submitted ==> engine.contacts == old(engine.contacts)
                                 && engine.injector.sink.batches == old(engine.injector.sink.batches)
        invariant AllWithin(plan.controls, old(directions), desiredDirections) ==>
                    !submitted && View() == old(View()) && handoff == old(handoff)
        invariant SentOn(old(engine.frames), engine.frames, Managed())
        invariant Ahead(|old(engine.contacts)|, steps, i, |engine.contacts|, plan.config.slotCount)
      {
        ReleaseStepAt(plan.controls, old(directions), desiredDirections, rest, i);
        RetainedStep(plan.controls, old(directions), desiredDirections, i);
        ghost var contacts, sent, active := engine.contacts, engine.frames, activeBindings;
        var released := ReleaseJoystick(i, tame);
        FramedMore(old(engine.frames), sent, engine.frames, old(engine.contacts), contacts, engine.contacts, Managed());
        HoldsKeptMore(plan.controls, old(activeBindings), active, activeBindings);
        StepTaken(|old(engine.contacts)|, steps, i, released.Ok?, DeviceRefused(released), |contacts|,
                  |engine.contacts|, plan.config.slotCount);
        if released.Err? {
          return released;
        }
        submitted := submitted || released.value;
        i := i + 1;
      }
      AheadOfRest(|old(engine.contacts)|, ReleaseSteps(plan.controls, old(directions), desiredDirections), rest,
                  |engine.contacts|, plan.config.slotCount);
      AcceptedNotRefused(submitted);
      return Ok(submitted);
    }

    method ReleaseHold(i: nat, ghost tame: bool) returns (r: Reply)
      requires Valid() && Grounded() && Logged() && pivot == |handoff| - 1 && i < |plan.controls|
      requires tame ==> TouchesShrinkThenGrow(handoff, pivot)
      modifies this`activeBindings, this`handoff, this`pivot, engine, engine.injector, engine.injector.sink
      ensures Valid() && Grounded() && Logged() && pivot == |handoff| - 1 && old(handoff) <= handoff
      ensures tame ==> TouchesShrinkThenGrow(handoff, pivot)
      ensures r.Err? ==> DeviceRefused(r) && activeBindings == old(activeBindings)
      ensures r.Ok? ==>
                activeBindings
                == old(activeBindings)[i := KeptActive(plan.controls[i], old(activeBindings)[i], desiredBindings[i])]
      ensures SameOutside(old(engine.contacts), engine.contacts, Managed())
      ensures SentOn(old(engine.frames), engine.frames, Managed())
      ensures r == Ok(false) ==> engine.contacts == old(engine.contacts)
                                 && engine.injector.sink.batches == old(engine.injector.sink.batches)
      ensures KeptActive(plan.controls[i], old(activeBindings)[i], desiredBindings[i]) == old(activeBindings)[i] ==>
                r == Ok(false) && View() == old(View()) && handoff == old(handoff)
      ensures StepCounts(r.Ok?, DeviceRefused(r),
                         LiftStep(plan.controls[i], old(activeBindings)[i], desiredBindings[i]),
                         |old(engine.contacts)|, |engine.contacts|, plan.config.slotCount)
      ensures DeviceRefused(r) ==> !engine.injector.sink.reliable
    {
      hide TouchEngine.Valid, AllGrounded, ShrinksThenGrows, TouchesShrinkThenGrow, LaidOut, Plan.Valid, HeldAfter;
      hide ManagedUpTo;
      hide SameOutside, StepCounts, SentOn, Spacious;
      SentNothing(engine.frames, Managed());
      SameOutsideItself(engine.contacts, Managed());
      NoStep(NEUTRAL, |engine.contacts|, plan.config.slotCount);
      if !plan.controls[i].action.Hold? || !activeBindings[i] || desiredBindings[i] {
        return Ok(false);
      }
      ManagedContact(i);
      GroundedOne(plan.controls, pointContacts, cursorContact, activeBindings, directions, aims, engine.contacts, i);
      r := PressTo(i, false);
      SentWider(old(engine.frames), engine.frames, {pointContacts[i].value}, Managed());
      SameOutsideWider(old(engine.contacts), engine.contacts, {pointContacts[i].value}, Managed());
      if r.Ok? {
        GroundedOne(plan.controls, pointContacts, cursorContact, activeBindings, directions, aims, engine.contacts, i);
        TameShrinks(pointContacts[i].value, old(engine.contacts), engine.contacts);
        LogShrink(tame);
      }
    }

    // Gives up the hold contacts nobody wants any more.
    method ReleaseHolds(ghost tame: bool, ghost rest: seq<int>) returns (r: Reply)
      requires Valid() && Grounded() && Logged() && pivot == |handoff| - 1
      requires tame ==> TouchesShrinkThenGrow(handoff, pivot)
      modifies this`activeBindings, this`handoff, this`pivot, engine, engine.injector, engine.injector.sink
      ensures Valid() && Grounded() && Logged() && pivot == |handoff| - 1 && old(handoff) <= handoff
      ensures tame ==> TouchesShrinkThenGrow(handoff, pivot)
      ensures r.Err? ==> DeviceRefused(r)
      ensures r.Ok? ==> activeBindings == KeptUpTo(plan.controls, old(activeBindings), desiredBindings, |plan.controls|)
      ensures SameOutside(old(engine.contacts), engine.contacts, Managed())
      ensures r == Ok(false) ==> engine.contacts == old(engine.contacts)
                                 && engine.injector.sink.batches == old(engine.injector.sink.batches)
      ensures HoldsWithin(plan.controls, old(activeBindings), desiredBindings) ==>
                r == Ok(false) && View() == old(View()) && handoff == old(handoff)
      ensures SentOn(old(engine.frames), engine.frames, Managed())
      ensures r.Ok? ==>
                (Overflows(|old(engine.contacts)|,
                           LiftSteps(plan.controls, old(activeBindings), desiredBindings) + rest, plan.config.slotCount)
                 <==> Overflows(|engine.contacts|, rest, plan.config.slotCount))
      ensures DeviceRefused(r) ==> !engine.injector.sink.reliable
    {
      hide AimsFit, UnifiedRuntime.Logged, UnifiedRuntime.View, UnifiedRuntime.Grounded, ManagedUpTo;
      hide UnifiedRuntime.HeldNow, DeviceRefused, Direction.Rests, Direction.Opposed;
      hide KeptUpTo, KeptActive;
      hide HoldsWithin;
      hide LiftStep;
      hide SameOutside;
      hide StepCounts, StickStep;
      hide SentOn, Overflows, LiftSteps, Ahead;
      hide TouchEngine.Valid, AllGrounded, ShrinksThenGrows, TouchesShrinkThenGrow, SnapshotsFit, HeldAfter, LaidOut;
      hide Plan.Valid;
      var submitted := false;
      ghost var steps := LiftSteps(plan.controls, old(activeBindings), desiredBindings) + rest;
      SentNothing(engine.frames, Managed());
      SameOutsideItself(engine.contacts, Managed());
      NothingGivenUp(plan.controls, activeBindings, desiredBindings, directions, desiredDirections);
      AheadOfAll(steps, |engine.contacts|, plan.config.slotCount);
      var i := 0;
      while i < |plan.controls|
        invariant 0 <= i <= |plan.controls|
        invariant Valid() && Grounded() && Logged() && pivot == |handoff| - 1 && old(handoff) <= handoff
        invariant tame ==> TouchesShrinkThenGrow(handoff, pivot)
        invariant activeBindings == KeptUpTo(plan.controls, old(activeBindings), desiredBindings, i)
        invariant SameOutside(old(engine.contacts), engine.contacts, Managed())
        invariant !submitted ==> engine.contacts == old(engine.contacts)
                                 && engine.injector.sink.batches == old(engine.injector.sink.batches)
        invariant HoldsWithin(plan.controls, old(activeBindings), desiredBindings) ==>
                    !submitted && View() == old(View()) && handoff == old(handoff)
        invariant SentOn(old(engine.frames), engine.frames, Managed())
        invariant Ahead(|old(engine.contacts)|, steps, i, |engine.contacts|, plan.config.slotCount)
      {
        LiftStepAt(plan.controls, old(activeBindings), desiredBindings, rest, i);
        KeptStep(plan.controls, old(activeBindings), desiredBindings, i);
        ghost var contacts, sent := engine.contacts, engine.frames;
        var released := ReleaseHold(i, tame);
        FramedMore(old(engine.frames), sent, engine.frames, old(engine.contacts), contacts, engine.contacts, Managed());
        StepTaken(|old(engine.contacts)|, steps, i, released.Ok?, DeviceRefused(released), |contacts|,
                  |engine.contacts|, plan.config.slotCount);
        if released.Err? {
          return released;
        }
        submitted := submitted || released.value;
        i := i + 1;
      }
      AheadOfRest(|old(engine.contacts)|, LiftSteps(plan.controls, old(activeBindings), desiredBindings), rest,
                  |engine.contacts|, plan.config.slotCount);
      AcceptedNotRefused(submitted);
      return Ok(submitted);
    }

    // Whether taking what control i is owed stays within `room`.
    ghost predicate HasRoom(i: nat, room: set<ContactId>)
      requires Shape() && i < |plan.controls|
      reads this, engine
    {
      && engine.contacts.Keys <= room && |room| <= engine.injector.config.slotCount
      && (plan.controls[i].action.Steer? ==> !desiredDirections[i].Opposed())
      && (Pressed(plan.controls[i], desiredBindings[i], desiredDirections[i]) ==>
            ContactsOf(plan.controls[i], pointContacts[i]) <= room)
    }

    method AcquireHold(i: nat, ghost tame: bool, ghost room: set<ContactId>) returns (r: Reply)
      requires Valid() && Grounded() && Logged()
      requires i < |plan.controls| && plan.controls[i].action.Hold? && !activeBindings[i] && desiredBindings[i]
      requires tame ==> TouchesShrinkThenGrow(handoff, pivot) && HasRoom(i, room)
      modifies this`activeBindings, this`handoff, engine, engine.injector, engine.injector.sink
      ensures Valid() && Grounded() && Logged() && old(handoff) <= handoff
      ensures tame ==>
                TouchesShrinkThenGrow(handoff, pivot) && engine.contacts.Keys <= room && (r.Err? ==> DeviceRefused(r))
      ensures r.Ok? ==> r.value && activeBindings == old(activeBindings)[i := true]
      ensures SameOutside(old(engine.contacts), engine.contacts, Managed())
      ensures SentOn(old(engine.frames), engine.frames, Managed())
      ensures Spacious() && r.Err? ==> DeviceRefused(r)
      ensures StepCounts(r.Ok?, DeviceRefused(r), 1, |old(engine.contacts)|, |engine.contacts|, plan.config.slotCount)
      ensures DeviceRefused(r) ==> !engine.injector.sink.reliable
    {
      hide StepCounts;
      hide SentOn, Spacious;
      hide TouchEngine.Valid, AllGrounded, ShrinksThenGrows, TouchesShrinkThenGrow, LaidOut, Plan.Valid, HeldAfter;
      hide ManagedUpTo;
      ManagedContact(i);
      GroundedOne(plan.controls, pointContacts, cursorContact, activeBindings, directions, aims, engine.contacts, i);
      if tame {
        RoomLeft(engine.contacts.Keys, room, pointContacts[i].value, engine.injector.config.slotCount);
      }
      r := PressTo(i, true);
      SentWider(old(engine.frames), engine.frames, {pointContacts[i].value}, Managed());
      if r.Ok? {
        LogGrow(tame);
      }
    }

    method AcquireJoystick(i: nat, ghost tame: bool, ghost room: set<ContactId>) returns (r: Reply)
      requires Valid() && Grounded() && Logged()
      requires i < |plan.controls| && plan.controls[i].action.Steer? && directions[i].Within(desiredDirections[i])
      requires tame ==> TouchesShrinkThenGrow(handoff, pivot) && HasRoom(i, room)
      modifies this`directions, this`activeBindings, this`handoff, engine, engine.injector, engine.injector.sink
      ensures Valid() && Grounded() && Logged() && old(handoff) <= handoff
      ensures tame ==>
                TouchesShrinkThenGrow(handoff, pivot) && engine.contacts.Keys <= room && (r.Err? ==> DeviceRefused(r))
      ensures r.Ok? ==> directions == old(directions)[i := desiredDirections[i]]
                        && activeBindings == old(activeBindings)[i := desiredDirections[i] != NEUTRAL]
      ensures r.Err? ==> directions == old(directions)
      ensures HoldsKept(plan.controls, old(activeBindings), activeBindings)
      ensures SameOutside(old(engine.contacts), engine.contacts, Managed())
      ensures r == Ok(false) ==> engine.contacts == old(engine.contacts)
                                 && engine.injector.sink.batches == old(engine.injector.sink.batches)
      ensures SentOn(old(engine.frames), engine.frames, Managed())
      ensures Spacious() && r.Err? ==> DeviceRefused(r)
      ensures StepCounts(r.Ok?, DeviceRefused(r), StickStep(old(directions)[i], desiredDirections[i]),
                         |old(engine.contacts)|, |engine.contacts|, plan.config.slotCount)
      ensures DeviceRefused(r) ==> !engine.injector.sink.reliable
    {
      hide AimsFit, SameOutside;
      hide Owns;
      hide StepCounts;
      hide SentOn, Spacious, StickStep;
      hide TouchEngine.Valid, AllGrounded, ShrinksThenGrows, TouchesShrinkThenGrow, LaidOut, Plan.Valid, HeldAfter;
      hide ManagedUpTo;
      hide Joystick.Target, Direction.Opposed, TurnFrames, SnapshotsFit;
      var joystick := plan.controls[i].action.joystick;
      ManagedContact(i);
      GroundedOne(plan.controls, pointContacts, cursorContact, activeBindings, directions, aims, engine.contacts, i);
      if tame && joystick.Target(desiredDirections[i]).Some? {
        RoomLeft(engine.contacts.Keys, room, joystick.contact, engine.injector.config.slotCount);
      }
      r := SteerTo(i, desiredDirections[i]);
      SentWider(old(engine.frames), engine.frames, {joystick.contact}, Managed());
      SameOutsideWider(old(engine.contacts), engine.contacts, {joystick.contact}, Managed());
      if tame {
        RoomAfter(old(engine.contacts), engine.contacts, joystick.contact, room);
      }
      if r.Ok? {
        if tame {
          TameGrows(joystick, old(directions[i]), desiredDirections[i], old(engine.contacts), engine.contacts);
        }
        OwnsTurn(plan.controls, old(View()), View(), i);
        LogGrow(tame);
      }
    }

    // Everything the pass may put down, together with what is already down, fits the device.
    ghost predicate Tame(room: set<ContactId>)
      requires Shape()
      reads this, engine
    {
      && Unopposed(plan.controls, desiredDirections)
      && engine.contacts.Keys <= room && |room| <= engine.injector.config.slotCount
      && PressedUpTo(plan.controls, pointContacts, desiredBindings, desiredDirections, |plan.controls|) <= room
    }

    lemma TameHasRoom(i: nat, room: set<ContactId>)
      requires Shape() && i < |plan.controls| && Tame(room)
      ensures HasRoom(i, room)
    {
      if Pressed(plan.controls[i], desiredBindings[i], desiredDirections[i]) {
        forall c | c in ContactsOf(plan.controls[i], pointContacts[i]) ensures c in room {
          PressedHas(plan.controls, pointContacts, desiredBindings, desiredDirections, |plan.controls|, c);
        }
      }
    }

    method AcquireControl(i: nat, ghost tame: bool, ghost room: set<ContactId>) returns (r: Reply)
      requires Valid() && Grounded() && Logged() && i < |plan.controls|
      requires AllWithin(plan.controls, directions, desiredDirections)
               && HoldsWithin(plan.controls, activeBindings, desiredBindings)
      requires GrantedUpTo(plan.controls, activeBindings, directions, desiredBindings, desiredDirections, i)
      requires tame ==> TouchesShrinkThenGrow(handoff, pivot) && Tame(room)
      modifies this`directions, this`activeBindings, this`handoff, engine, engine.injector, engine.injector.sink
      ensures Valid() && Grounded() && Logged() && old(handoff) <= handoff
      ensures tame ==> TouchesShrinkThenGrow(handoff, pivot) && Tame(room) && (r.Err? ==> DeviceRefused(r))
      ensures r.Ok? ==>
                && AllWithin(plan.controls, directions, desiredDirections)
                    && HoldsWithin(plan.controls, activeBindings, desiredBindings)
                && GrantedUpTo(plan.controls, activeBindings, directions, desiredBindings, desiredDirections, i + 1)
      ensures SameOutside(old(engine.contacts), engine.contacts, Managed())
      ensures r == Ok(false) ==> engine.contacts == old(engine.contacts)
                                 && engine.injector.sink.batches == old(engine.injector.sink.batches)
      ensures old(GrantedUpTo(plan.controls, activeBindings, directions, desiredBindings, desiredDirections,
                              |plan.controls|)) ==>
                r == Ok(false) && View() == old(View()) && handoff == old(handoff)
      ensures SentOn(old(engine.frames), engine.frames, Managed())
      ensures Spacious() && r.Err? ==> DeviceRefused(r)
      ensures StepCounts(r.Ok?, DeviceRefused(r),
                         TakeStep(plan.controls[i], old(activeBindings)[i], old(directions)[i], desiredBindings[i],
                                  desiredDirections[i]),
                         |old(engine.contacts)|, |engine.contacts|, plan.config.slotCount)
      ensures r.Ok? ==> Untaken(old(activeBindings), old(directions), activeBindings, directions, i + 1)
      ensures DeviceRefused(r) ==> !engine.injector.sink.reliable
    {
      hide StepCounts;
      hide SentOn, Spacious, StickStep;
      hide TouchEngine.Valid, AllGrounded, ShrinksThenGrows, TouchesShrinkThenGrow, LaidOut, Plan.Valid, HeldAfter;
      hide ManagedUpTo;
      hide SnapshotsFit, PressedUpTo;
      if tame {
        TameHasRoom(i, room);
      }
      SentNothing(engine.frames, Managed());
      NoStep(directions[i], |engine.contacts|, plan.config.slotCount);
      r := Ok(false);
      match plan.controls[i].action
      case Hold(_) =>
        if !activeBindings[i] && desiredBindings[i] {
          r := AcquireHold(i, tame, room);
        }
      case Steer(_, _) =>
        if directions[i] != desiredDirections[i] {
          r := AcquireJoystick(i, tame, room);
        }
      case _ =>
    }

    // Takes what is wanted and not yet owned, in plan order.
    method AcquireWanted(ghost tame: bool, ghost room: set<ContactId>) returns (r: Reply)
      requires Valid() && Grounded() && Logged()
      requires AllWithin(plan.controls, directions, desiredDirections)
               && HoldsWithin(plan.controls, activeBindings, desiredBindings)
      requires tame ==> TouchesShrinkThenGrow(handoff, pivot) && Tame(room)
      modifies this`directions, this`activeBindings, this`handoff, engine, engine.injector, engine.injector.sink
      ensures Valid() && Grounded() && Logged() && old(handoff) <= handoff
      ensures tame ==> TouchesShrinkThenGrow(handoff, pivot) && (r.Err? ==> DeviceRefused(r))
      ensures r.Ok? ==> GrantedUpTo(plan.controls, activeBindings, directions, desiredBindings, desiredDirections,
                                    |plan.controls|)
      ensures SameOutside(old(engine.contacts), engine.contacts, Managed())
      ensures r == Ok(false) ==> engine.contacts == old(engine.contacts)
                                 && engine.injector.sink.batches == old(engine.injector.sink.batches)
      ensures old(GrantedUpTo(plan.controls, activeBindings, directions, desiredBindings, desiredDirections,
                              |plan.controls|)) ==>
                r == Ok(false) && View() == old(View()) && handoff == old(handoff)
      ensures SentOn(old(engine.frames), engine.frames, Managed())
      ensures Spacious() && r.Err? ==> DeviceRefused(r)
      ensures r.Ok? ==>
               !Overflows(|old(engine.contacts)|,
                          TakeSteps(plan.controls, old(activeBindings), old(directions), desiredBindings,
                          desiredDirections), plan.config.slotCount)
      ensures r.Err? && !DeviceRefused(r) ==>
                Overflows(|old(engine.contacts)|,
                          TakeSteps(plan.controls, old(activeBindings), old(directions), desiredBindings,
                          desiredDirections), plan.config.slotCount)
      ensures DeviceRefused(r) ==> !engine.injector.sink.reliable
    {
      hide AimsFit, UnifiedRuntime.Logged;
      hide SameOutside;
      hide StepCounts, StickStep;
      hide SentOn, Spacious, Overflows, TakeSteps, TakeStep, Untaken, Ahead;
      hide TouchEngine.Valid, AllGrounded, ShrinksThenGrows, TouchesShrinkThenGrow, SnapshotsFit, HeldAfter, LaidOut;
      hide Plan.Valid;
      hide PressedUpTo, ManagedUpTo, AllWithin, HoldsWithin;
      var submitted := false;
      ghost var steps :=
        TakeSteps(plan.controls, activeBindings, directions, desiredBindings, desiredDirections);
      SentNothing(engine.frames, Managed());
      SameOutsideItself(engine.contacts, Managed());
      UntakenYet(activeBindings, directions);
      AheadOfAll(steps, |engine.contacts|, plan.config.slotCount);
      var i := 0;
      while i < |plan.controls|
        invariant 0 <= i <= |plan.controls|
        invariant Valid() && Grounded() && Logged() && old(handoff) <= handoff
        invariant AllWithin(plan.controls, directions, desiredDirections)
                  && HoldsWithin(plan.controls, activeBindings, desiredBindings)
        invariant GrantedUpTo(plan.controls, activeBindings, directions, desiredBindings, desiredDirections, i)
        invariant tame ==> TouchesShrinkThenGrow(handoff, pivot) && Tame(room)
        invariant SameOutside(old(engine.contacts), engine.contacts, Managed())
        invariant !submitted ==> engine.contacts == old(engine.contacts)
                                 && engine.injector.sink.batches == old(engine.injector.sink.batches)
        invariant old(GrantedUpTo(plan.controls, activeBindings, directions, desiredBindings, desiredDirections,
                                  |plan.controls|)) ==>
                    !submitted && View() == old(View()) && handoff == old(handoff)
        invariant SentOn(old(engine.frames), engine.frames, Managed())
        invariant Untaken(old(activeBindings), old(directions), activeBindings, directions, i)
        invariant Ahead(|old(engine.contacts)|, steps, i, |engine.contacts|, plan.config.slotCount)
      {
        TakeStepAt(plan.controls, old(activeBindings), old(directions), activeBindings, directions, desiredBindings,
                   desiredDirections, i);
        ghost var contacts, sent, active, current := engine.contacts, engine.frames, activeBindings, directions;
        var acquired := AcquireControl(i, tame, room);
        FramedMore(old(engine.frames), sent, engine.frames, old(engine.contacts), contacts, engine.contacts, Managed());
        StepTaken(|old(engine.contacts)|, steps, i, acquired.Ok?, DeviceRefused(acquired), |contacts|,
                  |engine.contacts|, plan.config.slotCount);
        if acquired.Ok? {
          UntakenMore(old(activeBindings), old(directions), active, current, activeBindings, directions, i);
        }
        if acquired.Err? {
          return acquired;
        }
        submitted := submitted || acquired.value;
        i := i + 1;
      }
      AheadOfNothing(|old(engine.contacts)|, steps, |engine.contacts|, plan.config.slotCount);
      return Ok(submitted);
    }

    ghost predicate InputsKept(held: Held, past: seq<HostInput>, controllers: seq<Option<AimController>>)
      reads this
    {
      HeldNow() == held && history == past && aims == controllers
    }

    // The two loops that give up what is no longer wanted.
    method ReleaseUnwanted(ghost tame: bool, ghost rest: seq<int>) returns (r: Reply)
      requires Valid() && Grounded() && Logged() && pivot == |handoff| - 1
      requires tame ==> Unopposed(plan.controls, directions) && TouchesShrinkThenGrow(handoff, pivot)
      modifies this`directions, this`activeBindings, this`handoff, this`pivot, engine, engine.injector
      modifies engine.injector.sink
      ensures Valid() && Grounded() && Logged() && pivot == |handoff| - 1 && old(handoff) <= handoff
      ensures tame ==> TouchesShrinkThenGrow(handoff, pivot) && (r.Err? ==> DeviceRefused(r))
      ensures r.Ok? ==>
                && directions == RetainedUpTo(plan.controls, old(directions), desiredDirections, |plan.controls|)
                && HoldsGivenUp(plan.controls, old(activeBindings), desiredBindings, activeBindings)
                && AllWithin(plan.controls, directions, desiredDirections)
                    && HoldsWithin(plan.controls, activeBindings, desiredBindings)
      ensures SameOutside(old(engine.contacts), engine.contacts, Managed())
      ensures r == Ok(false) ==> engine.contacts == old(engine.contacts)
                                 && engine.injector.sink.batches == old(engine.injector.sink.batches)
      ensures (AllWithin(plan.controls, old(directions), desiredDirections)
               && HoldsWithin(plan.controls, old(activeBindings), desiredBindings)) ==>
                r == Ok(false) && View() == old(View()) && handoff == old(handoff)
      ensures SentOn(old(engine.frames), engine.frames, Managed())
      ensures Spacious() && r.Err? ==> DeviceRefused(r)
      ensures r.Ok? ==>
                (Overflows(|old(engine.contacts)|,
                          ReleaseSteps(plan.controls, old(directions), desiredDirections)
                          + (LiftSteps(plan.controls, old(activeBindings), desiredBindings) + rest),
                              plan.config.slotCount)
                 <==> Overflows(|engine.contacts|, rest, plan.config.slotCount))
      ensures r.Err? && !DeviceRefused(r) ==>
                Overflows(|old(engine.contacts)|,
                          ReleaseSteps(plan.controls, old(directions), desiredDirections)
                          + (LiftSteps(plan.controls, old(activeBindings), desiredBindings) + rest),
                              plan.config.slotCount)
      ensures DeviceRefused(r) ==> !engine.injector.sink.reliable
    {
      hide SentOn, Spacious, Overflows, LiftSteps, ReleaseSteps;
      hide TouchEngine.Valid, AllGrounded, LaidOut, Plan.Valid, HeldAfter, ManagedUpTo, SnapshotsFit, ContactsOf;
      hide TouchesShrinkThenGrow, AllWithin, HoldsWithin, RetainedUpTo, KeptUpTo, Unopposed, ShrinksThenGrows;
      hide HoldsKept, HoldsGivenUp;
      var joysticks := ReleaseJoysticks(tame, LiftSteps(plan.controls, activeBindings, desiredBindings) + rest);
      LiftStepsKept(plan.controls, old(activeBindings), activeBindings, desiredBindings);
      ghost var sent := engine.frames;
      if joysticks.Err? {
        return joysticks;
      }
      ReleasedWithin(plan.controls, old(activeBindings), activeBindings, old(directions), desiredBindings,
                     desiredDirections);
      var holds := ReleaseHolds(tame, rest);
      SentMore(old(engine.frames), sent, engine.frames, Managed());
      if holds.Err? {
        return holds;
      }
      return Ok(joysticks.value || holds.value);
    }

    // The three loops together, once what is wanted is known.
    method DriveToDesired(ghost tame: bool, ghost room: set<ContactId>) returns (r: Reply)
      requires Valid() && Grounded() && handoff == [View()] && pivot == 0
      requires room == Room(plan.controls, pointContacts, engine.contacts.Keys, desiredBindings, desiredDirections)
      requires tame ==> Unopposed(plan.controls, directions) && Unopposed(plan.controls, desiredDirections)
                        && |room| <= plan.config.slotCount
      modifies this`directions, this`activeBindings, this`handoff, this`pivot, engine, engine.injector
      modifies engine.injector.sink
      ensures Valid() && Grounded() && Logged() && handoff[0] == old(View())
      ensures tame ==> TouchesShrinkThenGrow(handoff, pivot) && (r.Err? ==> DeviceRefused(r))
      ensures r.Ok? ==>
                && handoff[pivot].directions == RetainedUpTo(plan.controls, old(directions), desiredDirections,
                                                             |plan.controls|)
                && HoldsGivenUp(plan.controls, old(activeBindings), desiredBindings, handoff[pivot].active)
                && GrantedUpTo(plan.controls, activeBindings, directions, desiredBindings, desiredDirections,
                               |plan.controls|)
                && engine.contacts.Keys == room
      ensures SameOutside(old(engine.contacts), engine.contacts, Managed())
      ensures r == Ok(false) ==> engine.contacts == old(engine.contacts)
                                 && engine.injector.sink.batches == old(engine.injector.sink.batches)
      ensures (AllWithin(plan.controls, old(directions), desiredDirections)
               && HoldsWithin(plan.controls, old(activeBindings), desiredBindings)
               && GrantedUpTo(plan.controls, old(activeBindings), old(directions), desiredBindings, desiredDirections,
                              |plan.controls|)) ==>
                r == Ok(false) && View() == old(View())
      ensures SentOn(old(engine.frames), engine.frames, Managed())
      ensures Spacious() && r.Err? ==> DeviceRefused(r)
      ensures r.Ok? ==>
               !Overflows(|old(engine.contacts)|,
                          PassSteps(plan.controls, old(activeBindings), old(directions), desiredBindings,
                          desiredDirections), plan.config.slotCount)
      ensures r.Err? && !DeviceRefused(r) ==>
                Overflows(|old(engine.contacts)|,
                          PassSteps(plan.controls, old(activeBindings), old(directions), desiredBindings,
                          desiredDirections), plan.config.slotCount)
      ensures DeviceRefused(r) ==> !engine.injector.sink.reliable
    {
      hide SentOn, Spacious, Overflows, LiftSteps, ReleaseSteps, TakeSteps;
      hide TouchEngine.Valid, AllGrounded, LaidOut, Plan.Valid, HeldAfter, ManagedUpTo, PressedUpTo, ContactsOf;
      hide TouchesShrinkThenGrow, AllWithin, HoldsWithin, RetainedUpTo, GrantedUpTo, Unopposed, ShrinksThenGrows;
      hide HoldsGivenUp, Room;
      LogStarts(plan.controls, handoff);
      RoomCovers(plan.controls, pointContacts, engine.contacts.Keys, desiredBindings, desiredDirections);
      var released := ReleaseUnwanted(tame,
                                      TakeSteps(plan.controls, activeBindings, directions, desiredBindings,
                                                desiredDirections));
      ghost var sent := engine.frames;
      if released.Err? {
        return released;
      }
      TakeStepsAfterRelease(plan.controls, old(activeBindings), old(directions), activeBindings, desiredBindings,
                            desiredDirections);
      if tame {
        ReleasedInRoom(plan.controls, pointContacts, cursorContact, activeBindings, directions, aims,
                       old(engine.contacts), engine.contacts, desiredBindings, desiredDirections);
      }
      var acquired := AcquireWanted(tame, room);
      SentMore(old(engine.frames), sent, engine.frames, Managed());
      if acquired.Err? {
        return acquired;
      }
      GrantedIsRoom(plan.controls, pointContacts, cursorContact, activeBindings, directions, aims,
                    old(engine.contacts), engine.contacts, desiredBindings, desiredDirections);
      return Ok(released.value || acquired.value);
    }

    // Enough room, and no opposing keys before or after.
    ghost predicate EasyPass(before: Snapshot)
      requires |before.directions| == |plan.controls| == |desiredBindings| == |desiredDirections| == |pointContacts|
      reads this`desiredBindings, this`desiredDirections
    {
      && Unopposed(plan.controls, before.directions) && Unopposed(plan.controls, desiredDirections)
      && |Room(plan.controls, pointContacts, before.touching, desiredBindings,
               desiredDirections)| <= plan.config.slotCount
    }

    // Some step of the pass would put a contact down on a full device.
    ghost predicate Crowded(before: Snapshot)
      requires |before.active| == |before.directions| == |plan.controls| == |desiredBindings| == |desiredDirections|
      reads this`desiredBindings, this`desiredDirections
    {
      Overflows(|before.touching|,
                PassSteps(plan.controls, before.active, before.directions, desiredBindings, desiredDirections),
                plan.config.slotCount)
    }

    // One pass: refresh the layers, work out what is wanted, give up, then take. On success every
    // control is settled; a settled runtime is left exactly as it was.
    method ReconcileContinuous() returns (r: Reply)
      requires Valid() && Grounded()
      modifies this, engine, engine.injector, engine.injector.sink
      ensures Valid() && Grounded() && InputsKept(old(HeldNow()), old(history), old(aims))
              && SelectedIs(|plan.controls|)
      ensures AllDesired(plan, old(directions), HeldNow(), desiredBindings, desiredDirections)
      ensures r.Ok? ==> Settled()
      ensures r.Ok? ==>
                GrantedUpTo(plan.controls, activeBindings, directions, desiredBindings, desiredDirections,
                            |plan.controls|)
      // Everything on the screen that a pass manages is what the history asks for.
      ensures r.Ok? && plan.Prepared() ==>
                FollowsHistory() && AllSteerAsAsked(plan, history, old(directions), directions)
      ensures old(Settled()) ==> r == Ok(false) && View() == old(View())
      ensures r == Ok(false) ==> engine.contacts == old(engine.contacts)
                                 && engine.injector.sink.batches == old(engine.injector.sink.batches)
      // Ordered handoff: ownership shrinks to old and wanted, then grows to wanted.
      ensures Logged() && handoff[0] == old(View())
      ensures r.Ok? ==>
                && handoff[pivot].directions == RetainedUpTo(plan.controls, old(directions), desiredDirections,
                                                             |plan.controls|)
                && HoldsGivenUp(plan.controls, old(activeBindings), desiredBindings, handoff[pivot].active)
      // What is on the screen afterwards.
      ensures SameOutside(old(engine.contacts), engine.contacts, Managed())
      ensures r.Ok? ==>
                engine.contacts.Keys == Room(plan.controls, pointContacts, old(engine.contacts.Keys), desiredBindings,
                                             desiredDirections)
      // On an easy pass the contacts follow suit, and only the device can fail it.
      ensures EasyPass(old(View())) ==> TouchesShrinkThenGrow(handoff, pivot) && (r.Err? ==> DeviceRefused(r))
      // Apart from the device, a pass fails exactly if its steps run out of slots.
      ensures Crowded(old(View())) ==> r.Err?
      ensures r.Err? ==> DeviceRefused(r) || Crowded(old(View()))
      ensures Spacious() && r.Err? ==> DeviceRefused(r)
      ensures SentOn(old(engine.frames), engine.frames, Managed())
      ensures DeviceRefused(r) ==> !engine.injector.sink.reliable
    {
      hide SentOn, Spacious, Overflows, PassSteps, FollowsHistory, AllSteerAsAsked, Plan.Prepared, PassedFrom;
      hide TouchEngine.Valid, AllGrounded, LaidOut, Plan.Valid, HeldAfter, ManagedUpTo, PressedUpTo, AllSettled;
      hide AllDesired;
      hide TouchesShrinkThenGrow, AllWithin, HoldsWithin, RetainedUpTo, GrantedUpTo, Unopposed, ShrinksThenGrows;
      hide HoldsGivenUp, Room;
      RefreshSelectedInputLayers();
      ComputeDesired();
      SettledMeansGranted(plan, activeBindings, directions, HeldNow(), desiredBindings, desiredDirections);
      handoff, pivot := [View()], 0;
      r := DriveToDesired(EasyPass(old(View())),
                          Room(plan.controls, pointContacts, engine.contacts.Keys, desiredBindings, desiredDirections));
      if r.Ok? {
        GrantedSettles(plan, old(directions), activeBindings, directions, HeldNow(), desiredBindings,
                       desiredDirections);
        ShowsHistory();
        if plan.Prepared() {
          GrantedPassed(plan, old(directions), activeBindings, directions, HeldNow(), desiredBindings,
                        desiredDirections);
          PassRead(plan, history, old(directions), directions);
        }
      }
    }

    // A pass as its callers see it.
    method Pass() returns (r: Reply)
      requires Valid() && Grounded()
      modifies this, engine, engine.injector, engine.injector.sink
      ensures Valid() && Grounded() && InputsKept(old(HeldNow()), old(history), old(aims))
              && SelectedIs(|plan.controls|)
      ensures directions == passed && (r.Ok? ==> Settled() && PassedFrom(plan, old(directions), HeldNow(), passed))
      ensures r.Ok? && plan.Prepared() ==> AllSteerAsAsked(plan, history, old(directions), passed)
      ensures SameOutside(old(engine.contacts), engine.contacts, Managed())
      ensures r.Ok? ==>
                engine.contacts.Keys == Room(plan.controls, pointContacts, old(engine.contacts.Keys), desiredBindings,
                                             desiredDirections)
      // Apart from the device, a pass fails exactly if its steps run out of slots.
      ensures Crowded(old(View())) ==> r.Err?
      ensures r.Err? ==> DeviceRefused(r) || Crowded(old(View()))
      ensures Spacious() && r.Err? ==> DeviceRefused(r)
      ensures EasyPass(old(View())) && r.Err? ==> DeviceRefused(r)
      ensures SentOn(old(engine.frames), engine.frames, Managed()) && afterPass == engine.frames
      ensures DeviceRefused(r) ==> !engine.injector.sink.reliable
    {
      hide SentOn, Spacious, Overflows, PassSteps, Crowded, EasyPass, FollowsHistory, AllSteerAsAsked, Plan.Prepared;
      hide SameOutside;
      hide TouchEngine.Valid, AllGrounded, LaidOut, HeldAfter, AllSettled, Plan.Valid, PassedFrom, AllDesired;
      hide GrantedUpTo;
      hide ShrinksThenGrows, TouchesShrinkThenGrow, Room, RetainedUpTo, HoldsGivenUp, SnapshotsFit, AimsFit;
      r := ReconcileContinuous();
      passed, afterPass := directions, engine.frames;
      if r.Ok? {
        GrantedPassed(plan, old(directions), activeBindings, directions, HeldNow(), desiredBindings, desiredDirections);
      }
    }

    // -------------------------------------------------------------------------------------
    // Aim controllers

    method DriveAim(i: nat, command: AimCommand) returns (r: Reply)
      requires Valid() && Grounded() && i < |plan.controls| && plan.controls[i].action.Aim? && InRegions(aims)
      modifies this`aims, engine, engine.injector, engine.injector.sink
      ensures Valid() && aims == old(aims)[i := aims[i]] && InRegions(aims)
      ensures r.Ok? ==>
                Grounded() && Did(old(aims)[i].value, Some(command), old(engine.contacts), aims[i].value,
                                  engine.contacts)
      ensures SameOutside(old(engine.contacts), engine.contacts, ContactsOf(plan.controls[i], None))
      ensures SentOn(old(engine.frames), engine.frames, ContactsOf(plan.controls[i], None))
      ensures var aim := old(aims)[i].value;
              Staged(r.Ok?, DeviceRefused(r), command.Steps(aim, AimPosition(aim, old(engine.contacts))),
                     |old(engine.contacts)|, |engine.contacts|, plan.config.slotCount)
      ensures r.Err? && (command.Deactivate? || Spacious()) ==> DeviceRefused(r)
      ensures DeviceRefused(r) ==> !engine.injector.sink.reliable
    {
      hide SentOn, Spacious, Staged, SameOutside, AimCommand.Steps, AimCommand.ActiveAfter, AimController.Exact, Own;
      hide Obeyed;
      hide TouchEngine.Valid, AllGrounded, LaidOut, Plan.Valid, HeldAfter, AimController.Grounded, AimPosition;
      GroundedOne(plan.controls, pointContacts, cursorContact, activeBindings, directions, aims, engine.contacts, i);
      assert aims[i].value.Ids() == ContactsOf(plan.controls[i], None);
      PlannedAction(plan, i);
      ghost var aim, position := aims[i].value, AimPosition(aims[i].value, engine.contacts);
      RoomForCommand(command, aim, position, |engine.contacts|, plan.config.slotCount);
      if Spacious() {
        ghost var contact := OneIsUp(aim, engine.contacts);
        SpaciousRoom(i, contact);
      }
      var after: AimController;
      after, r := RunAimCommand(engine, aims[i].value, command);
      StagedMeans(r.Ok?, DeviceRefused(r), command.Steps(aim, position), |old(engine.contacts)|, |engine.contacts|,
                  plan.config.slotCount);
      aims := aims[i := Some(after)];
      if r.Ok? {
        Reground(plan.controls, pointContacts, cursorContact, i, activeBindings, directions, old(aims),
                 old(engine.contacts), activeBindings, directions, aims, engine.contacts);
      }
    }

    // One round over the aim controllers, in plan order, stopping at the first error.
    method DriveAims(commands: seq<Option<AimCommand>>) returns (r: Reply)
      requires Valid() && Grounded() && |commands| == |plan.controls|
      requires forall i | 0 <= i < |commands| && commands[i].Some? :: plan.controls[i].action.Aim?
      modifies this`aims, engine, engine.injector, engine.injector.sink
      ensures Valid() && InRegions(old(aims))
      ensures r.Ok? ==> Grounded() && Commanded(old(aims), commands, old(engine.contacts), aims, engine.contacts,
                                                |aims|)
      ensures SameOutside(old(engine.contacts), engine.contacts, AimContacts(plan.controls, |plan.controls|))
      ensures SentOn(old(engine.frames), engine.frames, AimContacts(plan.controls, |plan.controls|))
      // Apart from the device, it fails exactly if the steps of the controllers run out of slots.
      ensures Staged(r.Ok?, DeviceRefused(r),
                     Chain(AimSteps(old(aims), commands, old(engine.contacts)), |plan.controls|),
                     |old(engine.contacts)|, |engine.contacts|, plan.config.slotCount)
      ensures r.Err? && (OnlyDeactivates(commands) || Spacious()) ==> DeviceRefused(r)
      ensures DeviceRefused(r) ==> !engine.injector.sink.reliable
    {
      hide SentOn, Spacious, Staged, SameOutside, Undriven, InRegions, AimSteps, AimCommand.Steps;
      hide TouchEngine.Valid, AllGrounded, LaidOut, Plan.Valid, HeldAfter, ContactsOf, AimContacts, Chain;
      hide Did, AimCommand.ActiveAfter, AimController.IsActive, AimController.Exact, AimController.Grounded;
      hide AimPosition;
      ghost var ids := AimContacts(plan.controls, |plan.controls|);
      SentNothing(engine.frames, ids);
      SameOutsideItself(engine.contacts, ids);
      AimsInRegions(plan, aims);
      ghost var lists := AimSteps(aims, commands, engine.contacts);
      ChainNone(lists, |engine.contacts|, plan.config.slotCount);
      UndrivenYet(plan.controls, engine.contacts);
      CommandedNone(aims, commands, engine.contacts);
      var submitted := false;
      var i := 0;
      while i < |plan.controls|
        invariant 0 <= i <= |plan.controls|
        invariant Valid() && Grounded() && InRegions(aims)
        invariant Commanded(old(aims), commands, old(engine.contacts), aims, engine.contacts, i)
        invariant SameOutside(old(engine.contacts), engine.contacts, ids)
        invariant SentOn(old(engine.frames), engine.frames, ids)
        invariant Undriven(plan.controls, old(engine.contacts), engine.contacts, i)
        invariant Staged(true, false, Chain(lists, i), |old(engine.contacts)|, |engine.contacts|, plan.config.slotCount)
      {
        ghost var sent, contacts, controllers := engine.frames, engine.contacts, aims;
        if commands[i].Some? {
          GroundedOne(plan.controls, pointContacts, cursorContact, activeBindings, directions, aims, contacts, i);
          AimStepsAt(plan.controls, old(aims), aims, commands, old(engine.contacts), contacts, i);
          AimContactsHas(plan.controls, |plan.controls|, i);
          var driven := DriveAim(i, commands[i].value);
          SentWider(sent, engine.frames, ContactsOf(plan.controls[i], None), ids);
          SentMore(old(engine.frames), sent, engine.frames, ids);
          SameOutsideWider(contacts, engine.contacts, ContactsOf(plan.controls[i], None), ids);
          SameOutsideMore(old(engine.contacts), contacts, engine.contacts, ids);
          ChainStep(lists, i, driven.Ok?, DeviceRefused(driven), |old(engine.contacts)|, |contacts|, |engine.contacts|,
                    plan.config.slotCount);
          if driven.Err? {
            return driven;
          }
          submitted := submitted || driven.value;
        } else {
          NoCommand(old(aims), commands, old(engine.contacts), i);
          StagedNone(|contacts|, plan.config.slotCount);
          SameOutsideItself(contacts, ContactsOf(plan.controls[i], None));
          ChainStep(lists, i, true, false, |old(engine.contacts)|, |contacts|, |contacts|, plan.config.slotCount);
        }
        if commands[i].None? && aims[i].Some? {
          DidNothing(aims[i].value, contacts);
        }
        CommandedStep(plan.controls, pointContacts, cursorContact, old(aims), commands, old(engine.contacts),
                      controllers, contacts, aims, engine.contacts, i);
        UndrivenMore(plan.controls, pointContacts, cursorContact, old(engine.contacts), contacts, engine.contacts, i);
        i := i + 1;
      }
      return Ok(submitted);
    }

    // -------------------------------------------------------------------------------------
    // dispatch_keyboard_press and dispatch_mouse_press

    method FireTap(i: nat) returns (r: Reply)
      requires Valid() && Grounded() && i < |plan.controls| && plan.controls[i].action.Tap?
      modifies engine, engine.injector, engine.injector.sink
      ensures Valid()
      ensures r.Ok? ==>
                && r.value && Grounded() && engine.contacts == old(engine.contacts)
                && engine.frames == old(engine.frames)
                    + TapFrames(pointContacts[i].value, plan.controls[i].action.point)
      ensures Staged(r.Ok?, DeviceRefused(r), [1, -1], |old(engine.contacts)|, |engine.contacts|, plan.config.slotCount)
      ensures Spacious() && r.Err? ==> DeviceRefused(r)
      ensures DeviceRefused(r) ==> !engine.injector.sink.reliable
    {
      hide Spacious, Staged;
      hide TouchEngine.Valid, AllGrounded, LaidOut, Plan.Valid, HeldAfter;
      GroundedOne(plan.controls, pointContacts, cursorContact, activeBindings, directions, aims, engine.contacts, i);
      PlannedAction(plan, i);
      if Spacious() {
        SpaciousRoom(i, pointContacts[i].value);
      }
      var tapped := TapContact(engine, pointContacts[i].value, plan.controls[i].action.point);
      StagedUpDown(tapped.Ok?, DeviceRefused(tapped), |old(engine.contacts)|, |engine.contacts|, plan.config.slotCount);
      if tapped.Err? {
        return Err(tapped.error);
      }
      return Ok(true);
    }

    method ToggledDirection(i: nat, input: Input) returns (desired: Direction, changed: bool)
      requires Shape() && i < |plan.controls| && SelectedIs(|plan.controls|)
      requires FiresToggle(plan.controls[i], input)
      ensures desired == Toggled(plan, plan.controls[i], directions[i], input, HeldNow())
      ensures !changed ==> desired == directions[i]
    {
      var control := plan.controls[i];
      var OnCluster(up, left, down, right) := control.binding;
      AvailableFromTable(control, input);
      desired, changed := directions[i], false;
      if up == input.key && IsAvailable(control, input) {
        desired, changed := desired.(up := !desired.up), true;
      }
      if left == input.key && IsAvailable(control, input) {
        desired, changed := desired.(left := !desired.left), true;
      }
      if down == input.key && IsAvailable(control, input) {
        desired, changed := desired.(down := !desired.down), true;
      }
      if right == input.key && IsAvailable(control, input) {
        desired, changed := desired.(right := !desired.right), true;
      }
    }

    method FireControl(i: nat, input: Input) returns (r: Reply)
      requires Valid() && Grounded() && Settled() && i < |plan.controls| && SelectedIs(|plan.controls|)
      requires Fireable(plan, pointContacts)
      modifies this`directions, this`activeBindings, engine, engine.injector, engine.injector.sink
      ensures Valid() && SelectedIs(|plan.controls|)
      ensures r.Ok? ==>
                && Grounded() && Settled() && SameOutside(old(engine.contacts), engine.contacts, Managed())
                && directions == old(directions)[i := Toggled(plan, plan.controls[i], old(directions)[i], input,
                                                              HeldNow())]
                && engine.frames == old(engine.frames)
                                    + Fired(plan, plan.controls[i], pointContacts[i], old(directions)[i], input,
                                            HeldNow())
      ensures Staged(r.Ok?, DeviceRefused(r),
                     FireStep(plan, plan.controls[i], old(directions)[i], input, HeldNow()),
                     |old(engine.contacts)|, |engine.contacts|, plan.config.slotCount)
      ensures Spacious() && r.Err? ==> DeviceRefused(r)
      ensures DeviceRefused(r) ==> !engine.injector.sink.reliable
    {
      hide SameOutside, ManagedUpTo;
      hide SentOn, Spacious, StickStep, Staged, StepCounts, FireStep;
      hide TouchEngine.Valid, AllGrounded, LaidOut, Plan.Valid, HeldAfter, AllSettled, Toggled, SettledControl;
      hide TapFrames, Joystick.Target;
      hide SteerFrames, OwnerUpTo, Control.Available, TurnFrames;
      ghost var held := HeldNow();
      SameOutsideItself(engine.contacts, Managed());
      r := Ok(false);
      FiresNothing(plan, plan.controls[i], pointContacts[i], directions[i], input, held);
      FireStepIs(plan, plan.controls[i], directions[i], input, held);
      StagedNone(|engine.contacts|, plan.config.slotCount);
      NoStep(directions[i], |engine.contacts|, plan.config.slotCount);
      StagedOne(true, false, 0, |engine.contacts|, |engine.contacts|, plan.config.slotCount);
      if plan.controls[i].action.Tap? {
        if !plan.controls[i].binding.OnCluster? && plan.controls[i].Binds(input) {
          AvailableFromTable(plan.controls[i], input);
          if IsAvailable(plan.controls[i], input) {
            r := FireTap(i);
          }
        }
      } else if FiresToggle(plan.controls[i], input) {
        var desired, changed := ToggledDirection(i, input);
        if changed {
          ManagedContact(i);
          r := SteerTo(i, desired);
          SameOutsideWider(old(engine.contacts), engine.contacts, {plan.controls[i].action.joystick.contact},
                           Managed());
          StagedOne(r.Ok?, DeviceRefused(r), StickStep(old(directions)[i], desired), |old(engine.contacts)|,
                    |engine.contacts|, plan.config.slotCount);
          SettledOne(plan, old(activeBindings), old(directions), held, i);
          ToggledSettled(plan, plan.controls[i], old(activeBindings)[i], old(directions)[i], input, held,
                         activeBindings[i]);
          if r.Ok? {
            Resettle(plan, old(activeBindings), old(directions), held, i, activeBindings, directions);
          }
        }
      }
    }

    method DispatchPress(input: Input) returns (r: Reply)
      requires Valid() && Grounded() && Settled() && SelectedIs(|plan.controls|)
      requires Fireable(plan, pointContacts)
      modifies this`directions, this`activeBindings, engine, engine.injector, engine.injector.sink
      ensures Valid()
      ensures r.Ok? ==>
                && Grounded() && Settled() && SameOutside(old(engine.contacts), engine.contacts, Managed())
                && directions == ToggledUpTo(plan, old(directions), input, HeldNow(), |plan.controls|)
                && engine.frames == old(engine.frames)
                                    + FiredUpTo(plan, pointContacts, old(directions), input, HeldNow(), |plan.controls|)
      // Tap by tap and direction by direction, that is what the history asks for.
      ensures r.Ok? && plan.Prepared() ==>
                && |old(engine.frames)| <= |engine.frames|
                && AllTapsAsAsked(plan, history, pointContacts, input, engine.frames[|old(engine.frames)|..])
                && AllFlipsAsAsked(plan, history, input, old(directions), directions)
      // Apart from the device, it fails exactly if what is fired runs out of slots.
      ensures Staged(r.Ok?, DeviceRefused(r),
                     Chain(FireSteps(plan, old(directions), input, HeldNow()), |plan.controls|),
                     |old(engine.contacts)|, |engine.contacts|, plan.config.slotCount)
      ensures Spacious() && r.Err? ==> DeviceRefused(r)
      ensures DeviceRefused(r) ==> !engine.injector.sink.reliable
    {
      hide SameOutside, ManagedUpTo, Plan.Prepared, AllTapsAsAsked, AllFlipsAsAsked;
      hide Spacious, Staged, FireStep, FireSteps, Chain;
      hide TouchEngine.Valid, AllGrounded, LaidOut, Plan.Valid, HeldAfter, AllSettled, Toggled, Fired, ToggledUpTo;
      var submitted := false;
      ghost var held := HeldNow();
      SameOutsideItself(engine.contacts, Managed());
      ghost var lists := FireSteps(plan, directions, input, held);
      ChainNone(lists, |engine.contacts|, plan.config.slotCount);
      assert directions == ToggledUpTo(plan, directions, input, held, 0) by {
        ToggledNone(plan, directions, input, held);
      }
      var i := 0;
      while i < |plan.controls|
        invariant 0 <= i <= |plan.controls|
        invariant Valid() && Grounded() && Settled() && SelectedIs(|plan.controls|) && HeldNow() == held
        invariant directions == ToggledUpTo(plan, old(directions), input, held, i)
        invariant SameOutside(old(engine.contacts), engine.contacts, Managed())
        invariant engine.frames == old(engine.frames) + FiredUpTo(plan, pointContacts, old(directions), input, held, i)
        invariant Staged(true, false, Chain(lists, i), |old(engine.contacts)|, |engine.contacts|, plan.config.slotCount)
      {
        ToggledStep(plan, old(directions), input, held, i);
        FireStepAt(plan, old(directions), input, held, i);
        ghost var count, contacts := |engine.contacts|, engine.contacts;
        var fired := FireControl(i, input);
        ChainStep(lists, i, fired.Ok?, DeviceRefused(fired), |old(engine.contacts)|, count, |engine.contacts|,
                  plan.config.slotCount);
        if fired.Err? {
          return fired;
        }
        SameOutsideMore(old(engine.contacts), contacts, engine.contacts, Managed());
        submitted := submitted || fired.value;
        i := i + 1;
      }
      if plan.Prepared() {
        PressRead(plan, pointContacts, cursorContact, old(directions), history, input);
        assert engine.frames[|old(engine.frames)|..]
            == FiredUpTo(plan, pointContacts, old(directions), input, held, |plan.controls|);
      }
      return Ok(submitted);
    }

    // -------------------------------------------------------------------------------------
    // handle_keyboard

    method RecordKey(key: Key, pressed: bool) returns (consumed: bool)
      requires Valid()
      modifies this`heldKeys, this`activeLayers, this`heldModifiers, this`history
      ensures Valid() && history == old(history) + [KeyEdge(key, pressed)]
      ensures consumed == plan.Activates(key)
    {
      hide TouchEngine.Valid, LaidOut, HeldAfter, AimsFit;
      HeldAfterOne(plan, history, KeyEdge(key, pressed));
      heldKeys := if pressed then heldKeys + {key} else heldKeys - {key};
      consumed := false;
      if plan.layerControls[key].Some? {
        var layer := plan.layerControls[key].value;
        if layer.mode == HoldLayer {
          activeLayers := if pressed then activeLayers + {layer.bit} else activeLayers - {layer.bit};
        } else if pressed {
          activeLayers := if layer.bit in activeLayers then activeLayers - {layer.bit} else activeLayers + {layer.bit};
        }
        consumed := true;
      }
      if key in plan.modifierKeys {
        heldModifiers := if pressed then heldModifiers + {key} else heldModifiers - {key};
      }
      history := history + [KeyEdge(key, pressed)];
    }

    function ToggleCommands(key: Key): (commands: seq<Option<AimCommand>>)
      ensures |commands| == |plan.controls|
    {
      seq(|plan.controls|, i requires 0 <= i < |plan.controls| =>
        if plan.controls[i].action.Aim? && plan.controls[i].action.aim.toggleKey == Some(key) then Some(Toggle)
            else None)
    }

    // Nothing the runtime tracks differs from the given values.
    ghost predicate Untouched(held: Held, past: seq<HostInput>, controllers: seq<Option<AimController>>, view: Snapshot,
                              sent: seq<Frame>)
      reads this, engine
    {
      InputsKept(held, past, controllers) && View() == view && engine.frames == sent
    }

    // What that costs, given who aims and where the sticks are.
    ghost function KeySteps(key: Key, controllers: seq<Option<AimController>>, current: seq<Direction>, held: Held,
                            contacts: Contacts): seq<int>
      requires |controllers| == |current| == |plan.controls| && InRegions(controllers)
    {
      Chain(AimSteps(controllers, ToggleCommands(key), contacts), |plan.controls|)
      + Chain(FireSteps(plan, current, KeyInput(key), held), |plan.controls|)
    }

    // What was sent from some point on, and what became of the directions, is what a press of the input asks
    // for.
    ghost predicate FiredAsAsked(input: Input, before: seq<Direction>, start: nat)
      requires Shape() && |before| == |plan.controls|
      reads this, engine
    {
      && start <= |engine.frames|
      && AllTapsAsAsked(plan, history, pointContacts, input, engine.frames[start..])
      && AllFlipsAsAsked(plan, history, input, before, directions)
    }

    // What is left of a press once the pass has run: aim toggles, taps, toggle joysticks.
    method PressKey(key: Key) returns (r: Reply)
      requires Valid() && Grounded() && Settled() && SelectedIs(|plan.controls|)
      modifies this`aims, this`directions, this`activeBindings, this`afterAims, engine, engine.injector
      modifies engine.injector.sink
      ensures Valid()
      ensures r.Ok? ==>
                && Grounded() && Settled()
                && AimsToggled(plan.controls, key, old(aims), old(engine.contacts), aims, engine.contacts)
                && directions == ToggledUpTo(plan, old(directions), KeyInput(key), HeldNow(), |plan.controls|)
                && Fireable(plan, pointContacts)
                && SentOn(old(engine.frames), afterAims, AimContacts(plan.controls, |plan.controls|))
                && engine.frames == afterAims
                                    + FiredUpTo(plan, pointContacts, old(directions), KeyInput(key), HeldNow(),
                                                |plan.controls|)
      ensures r.Ok? && plan.Prepared() ==> FiredAsAsked(KeyInput(key), old(directions), |afterAims|)
      ensures InRegions(old(aims))
      ensures Staged(r.Ok?, DeviceRefused(r),
                     KeySteps(key, old(aims), old(directions), HeldNow(), old(engine.contacts)),
                     |old(engine.contacts)|, |engine.contacts|, plan.config.slotCount)
      ensures Spacious() && r.Err? ==> DeviceRefused(r)
      ensures DeviceRefused(r) ==> !engine.injector.sink.reliable
    {
      hide SentOn, Spacious, AimContacts, Staged, Chain, AimSteps, FireSteps, InRegions;
      hide TouchEngine.Valid, AllGrounded, LaidOut, Plan.Valid, HeldAfter, AllSettled, ToggledUpTo, FiredUpTo;
      hide Commanded, ToggleCommands, AimsToggled, SameOutside, ManagedUpTo, Plan.Prepared;
      hide AllTapsAsAsked, AllFlipsAsAsked;
      LaidOutFireable(plan, pointContacts, cursorContact);
      ToggleCommandsAim(key);
      AimsInRegions(plan, aims);
      ghost var aiming := Chain(AimSteps(aims, ToggleCommands(key), engine.contacts), |plan.controls|);
      ghost var firing := Chain(FireSteps(plan, directions, KeyInput(key), HeldNow()), |plan.controls|);
      var toggled := DriveAims(ToggleCommands(key));
      ghost var count := |engine.contacts|;
      if toggled.Err? {
        StagedShort(aiming, firing, DeviceRefused(toggled), |old(engine.contacts)|, count, plan.config.slotCount);
        return toggled;
      }
      afterAims := engine.frames;
      ghost var contacts := engine.contacts;
      CommandedToggles(plan.controls, key, old(aims), ToggleCommands(key), old(engine.contacts), aims, contacts);
      var fired := DispatchPress(KeyInput(key));
      StagedThen(aiming, firing, fired.Ok?, DeviceRefused(fired), |old(engine.contacts)|, count, |engine.contacts|,
                 plan.config.slotCount);
      if fired.Err? {
        return fired;
      }
      SameOutsideItself(old(engine.contacts), Managed());
      ToggledElsewhere(plan.controls, pointContacts, cursorContact, key, old(aims), old(engine.contacts),
                       old(engine.contacts), aims, contacts, engine.contacts);
      return Ok(toggled.value || fired.value);
    }

    lemma ToggleCommandsAim(key: Key)
      ensures forall i | 0 <= i < |plan.controls| && ToggleCommands(key)[i].Some? :: plan.controls[i].action.Aim?
      ensures forall i | 0 <= i < |plan.controls| && ToggleCommands(key)[i].Some? ::
              ToggleCommands(key)[i].value.Toggle?
      ensures forall i | 0 <= i < |plan.controls| && plan.controls[i].action.Aim? ::
                ToggleCommands(key)[i] == if plan.controls[i].action.aim.toggleKey == Some(key) then Some(Toggle)
                    else None
    {
    }

    lemma KeyStepsAlike(key: Key, controllers: seq<Option<AimController>>, current: seq<Direction>, held: Held,
                        before: Contacts, contacts: Contacts)
      requires |controllers| == |current| == |plan.controls| && InRegions(controllers)
      ensures KeySteps(key, controllers, current, held, before) == KeySteps(key, controllers, current, held, contacts)
    {
      ToggleSteps(controllers, ToggleCommands(key), before, contacts);
    }

    // After a pass that starts from these contacts, what the key does would run out of slots.
    ghost predicate KeyJams(touching: set<ContactId>, key: Key, controllers: seq<Option<AimController>>,
                            contacts: Contacts)
      requires |plan.controls| == |pointContacts| == |desiredBindings| == |desiredDirections|
      requires |controllers| == |plan.controls| && InRegions(controllers) && |passed| == |plan.controls|
      reads this
    {
      Overflows(|Room(plan.controls, pointContacts, touching, desiredBindings, desiredDirections)|,
                KeySteps(key, controllers, passed, HeldNow(), contacts), plan.config.slotCount)
    }

    method HandleKeyboard(key: Option<Key>, transition: Transition) returns (r: Reply)
      requires Valid() && Grounded()
      modifies this, engine, engine.injector, engine.injector.sink
      ensures Valid()
      ensures key.None? || transition.Repeat? ==>
                r == Ok(false) && Grounded() && Untouched(old(HeldNow()), old(history), old(aims), old(View()),
                                                          old(engine.frames))
      ensures key.Some? && !transition.Repeat? ==>
                && history == old(history) + [KeyEdge(key.value, transition.Press?)]
                && (r.Ok? ==> Grounded() && Settled() && PassedFrom(plan, old(directions), HeldNow(), passed))
      ensures key.Some? && !transition.Repeat? ==> |passed| == |plan.controls|
      // Afterwards the screen shows what the history asks for.
      ensures r.Ok? && key.Some? && !transition.Repeat? && plan.Prepared() ==>
                FollowsHistory() && AllSteerAsAsked(plan, history, old(directions), passed)
      ensures r.Ok? && key.Some? && transition.Press? && !plan.Activates(key.value) ==>
                && AimsToggled(plan.controls, key.value, old(aims), old(engine.contacts), aims, engine.contacts)
                && Fireable(plan, pointContacts)
                && directions == ToggledUpTo(plan, passed, KeyInput(key.value), HeldNow(), |plan.controls|)
                && SentOn(afterPass, afterAims, AimContacts(plan.controls, |plan.controls|))
                && engine.frames == afterAims
                                    + FiredUpTo(plan, pointContacts, passed, KeyInput(key.value), HeldNow(),
                                                |plan.controls|)
      // Tap by tap and direction by direction, what was fired is what the press asks for.
      ensures r.Ok? && key.Some? && transition.Press? && !plan.Activates(key.value) && plan.Prepared() ==>
                FiredAsAsked(KeyInput(key.value), passed, |afterAims|)
      ensures r.Ok? && key.Some? && (transition.Release? || (transition.Press? && plan.Activates(key.value))) ==>
                aims == old(aims) && directions == passed && engine.frames == afterPass
      // The pass sends on the contacts it manages, and fails as a pass does.
      ensures key.Some? && !transition.Repeat? ==>
                SentOn(old(engine.frames), afterPass, Managed()) && (Crowded(old(View())) ==> r.Err?)
      ensures r.Err? && (transition.Release? || (transition.Press? && key.Some? && plan.Activates(key.value))) ==>
                DeviceRefused(r) || (Crowded(old(View())) && !EasyPass(old(View())))
      // A press also fails, apart from the device, if after the pass the toggles and what is fired run out of
      // slots; and for no other reason.
      ensures InRegions(old(aims))
      ensures key.Some? && transition.Press? && !plan.Activates(key.value) ==>
                && (r.Err? ==> DeviceRefused(r) || Crowded(old(View()))
                               || KeyJams(old(engine.contacts.Keys), key.value, old(aims), old(engine.contacts)))
                && (r.Ok? ==> !KeyJams(old(engine.contacts.Keys), key.value, old(aims), old(engine.contacts)))
      // With a slot for every contact nothing but the device can fail.
      ensures Spacious() && r.Err? ==> DeviceRefused(r)
      ensures DeviceRefused(r) ==> !engine.injector.sink.reliable
    {
      hide SentOn, Spacious, AimContacts, Crowded, EasyPass, Overflows, Staged, KeySteps, InRegions, Room, AimSteps;
      hide TouchEngine.Valid, AllGrounded, LaidOut, HeldAfter, AllSettled, ToggledUpTo, FiredUpTo, AimsToggled;
      hide ToggleCommands, FollowsHistory, AllSteerAsAsked, Plan.Prepared, FiredAsAsked, SameOutside, ManagedUpTo;
      hide Plan.Valid, PassedFrom, Fireable;
      AimsInRegions(plan, aims);
      if key.None? || transition.Repeat? {
        return Ok(false);
      }
      var pressed := transition.Press?;
      var consumed := RecordKey(key.value, pressed);
      r := Pass();
      if r.Err? || consumed || !pressed {
        if r.Ok? {
          ShowsHistory();
        }
        return;
      }
      ToggleCommandsAim(key.value);
      ghost var contacts := engine.contacts;
      KeyStepsAlike(key.value, aims, passed, HeldNow(), old(engine.contacts), contacts);
      var dispatched := PressKey(key.value);
      StagedMeans(dispatched.Ok?, DeviceRefused(dispatched),
                  KeySteps(key.value, old(aims), passed, HeldNow(), contacts),
                  |contacts|, |engine.contacts|, plan.config.slotCount);
      if dispatched.Err? {
        return dispatched;
      }
      SameOutsideItself(engine.contacts, Managed());
      ToggledElsewhere(plan.controls, pointContacts, cursorContact, key.value, old(aims), old(engine.contacts),
                       contacts,
                       aims, engine.contacts, engine.contacts);
      ShowsHistory();
      return Ok(r.value || dispatched.value);
    }

    // -------------------------------------------------------------------------------------
    // handle_mouse

    method SetAds(pressed: bool)
      modifies this`aims
      ensures AdsAre(old(aims), pressed, aims)
    {
      var i := 0;
      while i < |aims|
        invariant 0 <= i <= |aims| == |old(aims)|
        invariant forall j | 0 <= j < i ::
                    aims[j] == if old(aims)[j].Some? then Some(old(aims)[j].value.Sighted(pressed)) else None
        invariant forall j | i <= j < |aims| :: aims[j] == old(aims)[j]
      {
        if aims[i].Some? {
          aims := aims[i := Some(aims[i].value.Sighted(pressed))];
        }
        i := i + 1;
      }
    }

    method RecordButton(button: Button, pressed: bool)
      requires Valid() && Grounded()
      modifies this`heldButtons, this`aims, this`history
      ensures Valid() && Grounded() && history == old(history) + [ButtonEdge(button, pressed)]
      ensures SameAim(old(aims), aims)
      // The right button raises and lowers the sights.
      ensures if button == RIGHT then AdsAre(old(aims), pressed, aims) else aims == old(aims)
    {
      hide TouchEngine.Valid, LaidOut, AllGrounded, HeldAfter, AimsFit, AdsAre, SameAim;
      HeldAfterOne(plan, history, ButtonEdge(button, pressed));
      SameAimReflexive(aims);
      heldButtons := if pressed then heldButtons + {button} else heldButtons - {button};
      if button == RIGHT {
        SetAds(pressed);
        AdsKeepGrounded(plan.controls, pointContacts, cursorContact, activeBindings, directions, old(aims),
                        engine.contacts, pressed, aims);
      }
      history := history + [ButtonEdge(button, pressed)];
    }

    function MoveCommands(dx: int, dy: int, due: seq<bool>): (commands: seq<Option<AimCommand>>)
      requires |due| == |plan.controls|
      ensures |commands| == |plan.controls|
    {
      seq(|plan.controls|, i requires 0 <= i < |plan.controls| =>
        if plan.controls[i].action.Aim? then Some(MoveBy(dx, dy, due[i])) else None)
    }

    method MoveAims(dx: int, dy: int, due: seq<bool>) returns (r: Reply)
      requires Valid() && Grounded() && |due| == |plan.controls|
      modifies this`aims, engine, engine.injector, engine.injector.sink
      ensures Valid() && InRegions(old(aims))
      ensures r.Ok? ==> Grounded() && SameAim(old(aims), aims)
      ensures r.Ok? ==> AimsMoved(old(aims), dx, dy, due, old(engine.contacts), aims, engine.contacts)
      ensures SameOutside(old(engine.contacts), engine.contacts, AimContacts(plan.controls, |plan.controls|))
      ensures SentOn(old(engine.frames), engine.frames, AimContacts(plan.controls, |plan.controls|))
      ensures Staged(r.Ok?, DeviceRefused(r),
                     Chain(AimSteps(old(aims), MoveCommands(dx, dy, due), old(engine.contacts)), |plan.controls|),
                     |old(engine.contacts)|, |engine.contacts|, plan.config.slotCount)
      ensures Spacious() && r.Err? ==> DeviceRefused(r)
      ensures DeviceRefused(r) ==> !engine.injector.sink.reliable
    {
      hide SentOn, Spacious, AimContacts, Staged, Chain, AimSteps, InRegions, SameOutside;
      hide TouchEngine.Valid, LaidOut, AllGrounded, Plan.Valid, HeldAfter;
      hide Own, Obeyed;
      r := DriveAims(MoveCommands(dx, dy, due));
      if r.Ok? {
        CommandedMoves(old(aims), dx, dy, due, MoveCommands(dx, dy, due), old(engine.contacts), aims, engine.contacts);
      }
    }

    method HandleMouse(event: MouseEvent) returns (r: Reply)
      requires Valid() && Grounded()
      requires event.Motion? ==> |event.due| == |plan.controls|
      modifies this, engine, engine.injector, engine.injector.sink
      ensures Valid()
      ensures r.Ok? ==> Grounded() && SameAim(old(aims), aims)
      ensures (event.ButtonChange? && event.transition.Repeat?) || event.Wheel?
              || (event.Motion? && event.dx == 0 == event.dy) ==>
                && r == Ok(false) && engine.contacts == old(engine.contacts)
                && Untouched(old(HeldNow()), old(history), old(aims), old(View()), old(engine.frames))
      // Motion moves aim contacts and nothing else.
      ensures event.Motion? ==>
                && history == old(history) && activeBindings == old(activeBindings) && directions == old(directions)
                && HeldNow() == old(HeldNow())
                && SameOutside(old(engine.contacts), engine.contacts, AimContacts(plan.controls, |plan.controls|))
                && SentOn(old(engine.frames), engine.frames, AimContacts(plan.controls, |plan.controls|))
      ensures event.ButtonChange? && !event.transition.Repeat? ==>
                && history == old(history) + [ButtonEdge(event.button, event.transition.Press?)]
                && (r.Ok? ==> Settled() && PassedFrom(plan, old(directions), HeldNow(), passed))
      // The right button raises and lowers the sights; motion takes every controller where it takes it alone.
      ensures r.Ok? && event.ButtonChange? && !event.transition.Repeat? ==>
                if event.button == RIGHT then AdsAre(old(aims), event.transition.Press?, aims) else aims == old(aims)
      ensures r.Ok? && event.Motion? && (event.dx != 0 || event.dy != 0) ==>
                AimsMoved(old(aims), event.dx, event.dy, event.due, old(engine.contacts), aims, engine.contacts)
      // Afterwards the screen shows what the history asks for, and a press fired what it asks for.
      ensures r.Ok? && event.ButtonChange? && !event.transition.Repeat? && plan.Prepared() ==>
                && FollowsHistory() && |passed| == |plan.controls|
                && AllSteerAsAsked(plan, history, old(directions), passed)
                && (event.transition.Press? ==> FiredAsAsked(ButtonInput(event.button), passed, |afterPass|))
      ensures r.Ok? && event.ButtonChange? && event.transition.Press? ==>
                && Fireable(plan, pointContacts)
                && directions == ToggledUpTo(plan, passed, ButtonInput(event.button), HeldNow(), |plan.controls|)
                && engine.frames == afterPass
                                    + FiredUpTo(plan, pointContacts, passed, ButtonInput(event.button), HeldNow(),
                                                |plan.controls|)
      ensures r.Ok? && event.ButtonChange? && event.transition.Release? ==>
                directions == passed && engine.frames == afterPass
      ensures event.ButtonChange? && !event.transition.Repeat? ==>
                SentOn(old(engine.frames), afterPass, Managed()) && (Crowded(old(View())) ==> r.Err?)
      ensures r.Err? && event.ButtonChange? && event.transition.Release? ==>
                DeviceRefused(r) || (Crowded(old(View())) && !EasyPass(old(View())))
      // Apart from the device, motion fails exactly if what it does to the controllers runs out of slots ...
      ensures InRegions(old(aims))
      ensures event.Motion? && (event.dx != 0 || event.dy != 0) ==>
                Staged(r.Ok?, DeviceRefused(r),
                       Chain(AimSteps(old(aims), MoveCommands(event.dx, event.dy, event.due), old(engine.contacts)),
                             |plan.controls|),
                       |old(engine.contacts)|, |engine.contacts|, plan.config.slotCount)
      // ... and a press exactly if the pass is crowded, or the device is full after it and some tap fires.
      ensures event.ButtonChange? && event.transition.Press? ==>
                && (r.Err? ==> DeviceRefused(r) || Crowded(old(View()))
                               || ButtonJams(old(engine.contacts.Keys), event.button))
                && (r.Ok? ==> !ButtonJams(old(engine.contacts.Keys), event.button))
      ensures Spacious() && r.Err? ==> DeviceRefused(r)
      ensures DeviceRefused(r) ==> !engine.injector.sink.reliable
    {
      hide SentOn, Spacious, Crowded, EasyPass, Overflows, Staged, Chain, AimSteps, InRegions, ButtonJams;
      hide TouchEngine.Valid, AllGrounded, LaidOut, HeldAfter, AllSettled, ToggledUpTo, FiredUpTo;
      hide Plan.Valid, PassedFrom, Fireable, SameAim, AimContacts, AdsAre, AimsMoved, FollowsHistory, AllSteerAsAsked;
      hide Plan.Prepared, FiredAsAsked, SameOutside;
      AimsInRegions(plan, aims);
      SameAimReflexive(aims);
      SameOutsideItself(engine.contacts, AimContacts(plan.controls, |plan.controls|));
      SentNothing(engine.frames, AimContacts(plan.controls, |plan.controls|));
      r := Ok(false);
      match event
      case Motion(dx, dy, due) =>
        if dx != 0 || dy != 0 {
          r := MoveAims(dx, dy, due);
        }
      case ButtonChange(button, transition) =>
        if !transition.Repeat? {
          r := ChangeButton(button, transition.Press?);
        }
      case Wheel =>
    }

    // After a pass that starts from these contacts the device is full, and some tap fires.
    ghost predicate ButtonJams(touching: set<ContactId>, button: Button)
      requires |plan.controls| == |pointContacts| == |desiredBindings| == |desiredDirections|
      reads this
    {
      && |Room(plan.controls, pointContacts, touching, desiredBindings, desiredDirections)| >= plan.config.slotCount
      && SomeTapFires(plan, ButtonInput(button), HeldNow(), |plan.controls|)
    }

    method ChangeButton(button: Button, pressed: bool) returns (r: Reply)
      requires Valid() && Grounded()
      modifies this, engine, engine.injector, engine.injector.sink
      ensures Valid() && history == old(history) + [ButtonEdge(button, pressed)]
      ensures r.Ok? ==>
                Grounded() && Settled() && SameAim(old(aims), aims)
                && PassedFrom(plan, old(directions), HeldNow(), passed)
      ensures r.Ok? ==> if button == RIGHT then AdsAre(old(aims), pressed, aims) else aims == old(aims)
      ensures r.Ok? && plan.Prepared() ==>
                && FollowsHistory() && |passed| == |plan.controls|
                && AllSteerAsAsked(plan, history, old(directions), passed)
                && (pressed ==> FiredAsAsked(ButtonInput(button), passed, |afterPass|))
      ensures r.Ok? && pressed ==>
                && Fireable(plan, pointContacts)
                && directions == ToggledUpTo(plan, passed, ButtonInput(button), HeldNow(), |plan.controls|)
                && engine.frames == afterPass
                                    + FiredUpTo(plan, pointContacts, passed, ButtonInput(button), HeldNow(),
                                                |plan.controls|)
      ensures r.Ok? && !pressed ==> directions == passed && engine.frames == afterPass
      ensures SentOn(old(engine.frames), afterPass, Managed()) && (Crowded(old(View())) ==> r.Err?)
      ensures r.Err? && !pressed ==> DeviceRefused(r) || (Crowded(old(View())) && !EasyPass(old(View())))
      ensures pressed ==>
                && (r.Err? ==>
                      DeviceRefused(r) || Crowded(old(View())) || ButtonJams(old(engine.contacts.Keys), button))
                && (r.Ok? ==> !ButtonJams(old(engine.contacts.Keys), button))
      ensures Spacious() && r.Err? ==> DeviceRefused(r)
      ensures DeviceRefused(r) ==> !engine.injector.sink.reliable
    {
      hide SentOn, Spacious, Crowded, EasyPass, Overflows, Staged, Chain, FireSteps, Room, SomeTapFires;
      hide TouchEngine.Valid, AllGrounded, LaidOut, HeldAfter, AllSettled, ToggledUpTo, FiredUpTo;
      hide Plan.Valid, PassedFrom, Fireable, SameAim, AimContacts, AdsAre, FollowsHistory, AllSteerAsAsked;
      hide Plan.Prepared, AllTapsAsAsked, AllFlipsAsAsked, SameOutside;
      RecordButton(button, pressed);
      r := Pass();
      if r.Ok? && pressed {
        LaidOutFireable(plan, pointContacts, cursorContact);
        ghost var count := |engine.contacts|;
        ButtonFires(plan, directions, button, HeldNow(), |plan.controls|, count, plan.config.slotCount);
        ghost var steps := Chain(FireSteps(plan, directions, ButtonInput(button), HeldNow()), |plan.controls|);
        var fired := DispatchPress(ButtonInput(button));
        StagedMeans(fired.Ok?, DeviceRefused(fired), steps, count, |engine.contacts|, plan.config.slotCount);
        r := if fired.Err? then fired else Ok(r.value || fired.value);
      }
      if r.Ok? {
        ShowsHistory();
      }
    }

    // release_mouse_buttons
    method ReleaseMouseButtons() returns (r: Reply)
      requires Valid() && Grounded() && Settled()
      modifies this, engine, engine.injector, engine.injector.sink
      ensures Valid() && heldButtons == {}
      ensures history == old(history) + (if old(heldButtons) == {} then [] else [ButtonsDropped])
      ensures r.Ok? ==> Grounded() && Settled() && SameAim(old(aims), aims)
      ensures r.Ok? ==> if old(heldButtons) == {} then aims == old(aims) else AdsAre(old(aims), false, aims)
      ensures r.Ok? && plan.Prepared() ==> FollowsHistory()
      ensures SentOn(old(engine.frames), engine.frames, Managed())
      ensures r.Err? ==> DeviceRefused(r) || (Crowded(old(View())) && !EasyPass(old(View())))
      ensures old(heldButtons) != {} && Crowded(old(View())) ==> r.Err?
      ensures Spacious() && r.Err? ==> DeviceRefused(r)
      ensures DeviceRefused(r) ==> !engine.injector.sink.reliable
    {
      hide SentOn, Spacious, Crowded, EasyPass, Overflows;
      hide TouchEngine.Valid, AllGrounded, LaidOut, AllSettled;
      hide Plan.Valid, PassedFrom, SameAim, AdsAre, FollowsHistory, Plan.Prepared, SameOutside, AllSteerAsAsked;
      SameAimReflexive(aims);
      SentNothing(engine.frames, Managed());
      if heldButtons == {} {
        ShowsHistory();
        return Ok(false);
      }
      DropButtons();
      r := Pass();
      if r.Ok? {
        ShowsHistory();
      }
    }

    method DropButtons()
      requires Valid() && Grounded()
      modifies this`heldButtons, this`aims, this`history
      ensures Valid() && Grounded() && heldButtons == {} && history == old(history) + [ButtonsDropped]
      ensures SameAim(old(aims), aims) && AdsAre(old(aims), false, aims)
    {
      hide TouchEngine.Valid, LaidOut, AllGrounded, HeldAfter, AimsFit, AdsAre, SameAim;
      HeldAfterOne(plan, history, ButtonsDropped);
      heldButtons := {};
      SetAds(false);
      AdsKeepGrounded(plan.controls, pointContacts, cursorContact, activeBindings, directions, old(aims),
                      engine.contacts, false, aims);
      history := history + [ButtonsDropped];
    }

    // -------------------------------------------------------------------------------------
    // Switching aim on and off

    predicate IsAiming(i: nat)
      requires i < |aims|
      reads this
    {
      aims[i].Some? && aims[i].value.IsActive()
    }

    predicate AimActive()
      reads this
    {
      AnyActive(aims)
    }

    function RestoreCommands(reactivate: bool): (commands: seq<Option<AimCommand>>)
      requires |aims| == |plan.controls|
      reads this
      ensures |commands| == |plan.controls|
    {
      seq(|plan.controls|, i requires 0 <= i < |plan.controls| && |aims| == |plan.controls| reads this =>
        if plan.controls[i].action.Aim? && (plan.controls[i].action.aim.toggleKey.None? || reactivate) && !IsAiming(i)
            then Some(Activate)
        else None)
    }

    // restore_aim; with `reactivate` false also start.
    method RestoreAim(reactivate: bool) returns (r: Reply)
      requires Valid() && Grounded()
      modifies this`aims, engine, engine.injector, engine.injector.sink
      ensures Valid()
      ensures r.Ok? ==> Grounded()
      ensures r.Ok? ==> Restored(plan.controls, old(aims), reactivate, aims)
      ensures r.Ok? ==>
                AimsRestored(plan.controls, old(aims), reactivate, old(engine.contacts), aims, engine.contacts)
      ensures r.Ok? ==>
                (AimActive() <==>
                      old(AimActive()) || HasAlwaysOnAim(plan.controls)
                      || (reactivate && HasToggleKeyAim(plan.controls)))
      ensures SameOutside(old(engine.contacts), engine.contacts, AimContacts(plan.controls, |plan.controls|))
      ensures SentOn(old(engine.frames), engine.frames, AimContacts(plan.controls, |plan.controls|))
      ensures InRegions(old(aims))
      ensures Staged(r.Ok?, DeviceRefused(r),
                     Chain(AimSteps(old(aims), old(RestoreCommands(reactivate)), old(engine.contacts)),
                           |plan.controls|),
                     |old(engine.contacts)|, |engine.contacts|, plan.config.slotCount)
      ensures Spacious() && r.Err? ==> DeviceRefused(r)
      ensures DeviceRefused(r) ==> !engine.injector.sink.reliable
    {
      hide SentOn, Spacious, Staged, Chain, AimSteps, InRegions;
      hide TouchEngine.Valid, LaidOut, AllGrounded, Plan.Valid, HeldAfter, AimContacts;
      hide Own, Obeyed, AimController.Exact;
      r := DriveAims(RestoreCommands(reactivate));
      if r.Ok? {
        CommandedRestores(plan.controls, reactivate, old(aims), old(RestoreCommands(reactivate)), old(engine.contacts),
                          aims, engine.contacts);
      }
    }

    function DisableCommands(): (commands: seq<Option<AimCommand>>)
      requires AimsFit(plan.controls, aims)
      reads this
      ensures |commands| == |plan.controls|
    {
      seq(|plan.controls|, i requires 0 <= i < |plan.controls| == |aims| reads this =>
        if IsAiming(i) then Some(Deactivate) else None)
    }

    // set_aim_enabled(false)
    method DisableAim() returns (r: Reply)
      requires Valid() && Grounded()
      modifies this`aims, engine, engine.injector, engine.injector.sink
      ensures Valid()
      ensures r.Ok? ==> Grounded() && !AimActive()
      ensures SameOutside(old(engine.contacts), engine.contacts, AimContacts(plan.controls, |plan.controls|))
      ensures SentOn(old(engine.frames), engine.frames, AimContacts(plan.controls, |plan.controls|))
      ensures r.Err? ==> DeviceRefused(r)
      ensures DeviceRefused(r) ==> !engine.injector.sink.reliable
    {
      hide SentOn, Spacious, Staged, Chain, AimSteps, InRegions;
      hide TouchEngine.Valid, LaidOut, AllGrounded, Plan.Valid, HeldAfter, AimContacts;
      hide Own, Obeyed, AimController.Exact;
      r := DriveAims(DisableCommands());
    }

    // -------------------------------------------------------------------------------------
    // The cursor contact

    method CursorDown(position: Point) returns (r: Result<(), EngineError>)
      requires Valid() && Grounded()
      modifies engine, engine.injector, engine.injector.sink
      ensures Valid() && Grounded()
      ensures r.Ok? ==> engine.contacts == old(engine.contacts)[cursorContact := position]
      ensures r.Err? ==> engine.contacts == old(engine.contacts)
      ensures SentOn(old(engine.frames), engine.frames, {cursorContact})
      // Apart from the device, a cursor on the surface fails exactly if it is up and no slot is free.
      ensures plan.config.Contains(position) ==>
                if cursorContact !in old(engine.contacts) && |old(engine.contacts)| >= plan.config.slotCount
                then r == Err(Injection(NoFreeSlot(cursorContact))) else r.Ok? || DeviceRefused(r)
      ensures Spacious() && plan.config.Contains(position) && r.Err? ==> DeviceRefused(r)
      ensures DeviceRefused(r) ==> !engine.injector.sink.reliable
    {
      hide TouchEngine.Valid, LaidOut, AllGrounded, Plan.Valid, HeldAfter;
      if Spacious() {
        GroundedReserved(plan.controls, pointContacts, cursorContact, activeBindings, directions, aims,
                         engine.contacts);
        RoomLeft(engine.contacts.Keys, Reserved(plan.controls, pointContacts, cursorContact), cursorContact,
                 plan.config.slotCount);
      }
      if cursorContact in engine.contacts {
        r := engine.MoveContact(cursorContact, position);
      } else {
        r := engine.BeginContact(cursorContact, position);
      }
      RegroundCursor(plan.controls, pointContacts, cursorContact, activeBindings, directions, aims,
                     old(engine.contacts), engine.contacts);
    }

    method CursorMove(position: Point) returns (r: Result<(), EngineError>)
      requires Valid() && Grounded()
      modifies engine, engine.injector, engine.injector.sink
      ensures Valid() && Grounded()
      ensures r.Ok? ==> engine.contacts == if cursorContact in old(engine.contacts)
              then old(engine.contacts)[cursorContact := position]
                                           else old(engine.contacts)
      ensures r.Err? ==> engine.contacts == old(engine.contacts)
      ensures SentOn(old(engine.frames), engine.frames, {cursorContact})
      ensures plan.config.Contains(position) && r.Err? ==> DeviceRefused(r)
      ensures DeviceRefused(r) ==> !engine.injector.sink.reliable
    {
      hide TouchEngine.Valid, LaidOut, AllGrounded, Plan.Valid, HeldAfter;
      if cursorContact !in engine.contacts {
        return Ok(());
      }
      r := engine.MoveContact(cursorContact, position);
      RegroundCursor(plan.controls, pointContacts, cursorContact, activeBindings, directions, aims,
                     old(engine.contacts), engine.contacts);
    }

    method CursorUp() returns (r: Result<(), EngineError>)
      requires Valid() && Grounded()
      modifies engine, engine.injector, engine.injector.sink
      ensures Valid() && Grounded()
      ensures r.Ok? ==> engine.contacts == old(engine.contacts) - {cursorContact}
      ensures r.Err? ==> engine.contacts == old(engine.contacts) && DeviceRefused(r)
      ensures SentOn(old(engine.frames), engine.frames, {cursorContact})
      ensures DeviceRefused(r) ==> !engine.injector.sink.reliable
    {
      hide TouchEngine.Valid, LaidOut, AllGrounded, Plan.Valid, HeldAfter;
      if cursorContact !in engine.contacts {
        return Ok(());
      }
      r := engine.LiftContact(cursorContact, Up);
      RegroundCursor(plan.controls, pointContacts, cursorContact, activeBindings, directions, aims,
                     old(engine.contacts), engine.contacts);
    }

    // -------------------------------------------------------------------------------------
    // tick

    function TickCommands(due: seq<bool>): (commands: seq<Option<AimCommand>>)
      requires |due| == |plan.controls|
      ensures |commands| == |plan.controls|
    {
      seq(|plan.controls|, i requires 0 <= i < |plan.controls| =>
        if plan.controls[i].action.Aim? then Some(TickBy(due[i])) else None)
    }

    // Sends the joysticks that are due to where they already are.
    method ReaffirmJoysticks(due: seq<bool>) returns (r: Result<(), EngineError>)
      requires Valid() && |due| == |plan.controls|
      modifies engine, engine.injector, engine.injector.sink
      ensures Valid() && engine.contacts == old(engine.contacts)
      ensures SentOn(old(engine.frames), engine.frames, Managed())
      // Every stick that is due and down was sent once to where it is.
      ensures |old(engine.frames)| <= |engine.frames|
      ensures r.Ok? ==>
                Repeats(plan.controls, due, engine.contacts, engine.frames[|old(engine.frames)|..], |plan.controls|)
      ensures r.Err? ==> DeviceRefused(r)
      ensures DeviceRefused(r) ==> !engine.injector.sink.reliable
    {
      hide SentOn, ManagedUpTo, Repeats;
      hide TouchEngine.Valid, LaidOut, Plan.Valid, HeldAfter;
      SentNothing(engine.frames, Managed());
      RepeatsNone(plan.controls, due, engine.contacts, engine.frames);
      var i := 0;
      while i < |plan.controls|
        invariant 0 <= i <= |plan.controls|
        invariant Valid() && engine.contacts == old(engine.contacts)
        invariant SentOn(old(engine.frames), engine.frames, Managed())
        invariant |old(engine.frames)| <= |engine.frames|
        invariant Repeats(plan.controls, due, engine.contacts, engine.frames[|old(engine.frames)|..], i)
      {
        if plan.controls[i].action.Steer? && due[i] && plan.controls[i].action.joystick.contact in engine.contacts {
          var contact := plan.controls[i].action.joystick.contact;
          ContactsOnSurface(engine);
          ghost var sent, contacts := engine.frames, engine.contacts;
          var moved := engine.MoveContact(contact, engine.contacts[contact]);
          assert engine.contacts == contacts;
          ManagedContact(i);
          SentMoves(sent, engine.frames, contact, engine.contacts[contact], Managed());
          SentMore(old(engine.frames), sent, engine.frames, Managed());
          if moved.Err? {
            return moved;
          }
          RepeatsStep(plan.controls, pointContacts, cursorContact, due, contacts, |old(engine.frames)|, sent,
                      engine.frames, i);
        } else {
          RepeatsSkip(plan.controls, due, engine.contacts, engine.frames[|old(engine.frames)|..], i);
        }
        i := i + 1;
      }
      return Ok(());
    }

    method Tick(due: seq<bool>) returns (r: Reply, ghost afterAim: nat)
      requires Valid() && Grounded() && |due| == |plan.controls|
      modifies this`aims, engine, engine.injector, engine.injector.sink
      ensures Valid()
      ensures r.Ok? ==> Grounded() && SameAim(old(aims), aims)
      // Every pause that is over ends, and every stick that is due is sent again.
      ensures r.Ok? ==>
                && AimsTicked(old(aims), due, old(engine.contacts), aims, engine.contacts)
                && afterAim <= |engine.frames|
                && Repeats(plan.controls, due, engine.contacts, engine.frames[afterAim..], |plan.controls|)
      ensures SameOutside(old(engine.contacts), engine.contacts, AimContacts(plan.controls, |plan.controls|))
      ensures SentOn(old(engine.frames), engine.frames, AimContacts(plan.controls, |plan.controls|) + Managed())
      // Apart from the device, it fails exactly if the pauses that are over run out of slots.
      ensures InRegions(old(aims))
      ensures Staged(r.Ok?, DeviceRefused(r),
                     Chain(AimSteps(old(aims), TickCommands(due), old(engine.contacts)), |plan.controls|),
                     |old(engine.contacts)|, |engine.contacts|, plan.config.slotCount)
      ensures Spacious() && r.Err? ==> DeviceRefused(r)
      ensures DeviceRefused(r) ==> !engine.injector.sink.reliable
    {
      hide SentOn, Spacious, Staged, Chain, AimSteps, InRegions;
      hide TouchEngine.Valid, LaidOut, AllGrounded, Plan.Valid, HeldAfter, AimContacts;
      hide Own, Obeyed, AimsTicked, Repeats;
      r := DriveAims(TickCommands(due));
      afterAim := |engine.frames|;
      ghost var ids := AimContacts(plan.controls, |plan.controls|) + Managed();
      ghost var sent := engine.frames;
      SentWider(old(engine.frames), sent, AimContacts(plan.controls, |plan.controls|), ids);
      if r.Ok? {
        CommandedTicks(old(aims), due, TickCommands(due), old(engine.contacts), aims, engine.contacts);
        var reaffirmed := ReaffirmJoysticks(due);
        SentWider(sent, engine.frames, Managed(), ids);
        SentMore(old(engine.frames), sent, engine.frames, ids);
        if reaffirmed.Err? {
          StagedRefused(Chain(AimSteps(old(aims), TickCommands(due), old(engine.contacts)), |plan.controls|),
                      |old(engine.contacts)|, |engine.contacts|, plan.config.slotCount);
          r := Err(reaffirmed.error);
        }
      }
    }

    // -------------------------------------------------------------------------------------
    // suspend

    // Cancels every controller, twice where the first attempt fails, and reports the first error.
    method CancelAims() returns (error: Option<EngineError>)
      requires Valid()
      modifies this`aims, engine, engine.injector, engine.injector.sink
      ensures Valid() && AllIdle(aims)
      ensures engine.injector.sink.failures >= old(engine.injector.sink.failures)
      ensures error.Some? ==>
                error.value == Injection(Emit) && engine.injector.sink.failures > old(engine.injector.sink.failures)
      ensures engine.injector.sink.reliable ==> error.None?
    {
      hide TouchEngine.Valid, LaidOut, Plan.Valid, HeldAfter;
      error := None;
      var i := 0;
      while i < |aims|
        invariant 0 <= i <= |aims| == |plan.controls| && Valid()
        invariant forall j | 0 <= j < i && aims[j].Some? :: aims[j].value.Idle()
        invariant engine.injector.sink.failures >= old(engine.injector.sink.failures)
        invariant error.Some? ==>
                    error.value == Injection(Emit) && engine.injector.sink.failures > old(engine.injector.sink.failures)
        invariant engine.injector.sink.reliable ==> error.None?
      {
        if aims[i].Some? {
          var after, cancelled := CancelAim(engine, aims[i].value);
          if cancelled.Err? {
            error := if error.None? then Some(cancelled.error) else error;
            // Nothing is left to submit, so this time it goes through.
            after, cancelled := CancelAim(engine, after);
            assert cancelled.Ok?;
          }
          aims := aims[i := Some(after)];
        }
        i := i + 1;
      }
    }

    method ForgetInputs()
      requires Valid()
      modifies this`activeLayers, this`heldKeys, this`heldModifiers, this`heldButtons, this`history
      ensures Valid() && HeldNow() == NOTHING_HELD && history == old(history) + [Suspended]
    {
      hide TouchEngine.Valid, LaidOut, HeldAfter, AimsFit, Plan.ActionValid;
      HeldAfterOne(plan, history, Suspended);
      activeLayers, heldKeys, heldModifiers, heldButtons := {}, {}, {}, {};
      history := history + [Suspended];
    }

    method ForgetOwnership()
      requires Valid() && HeldNow() == NOTHING_HELD
      modifies this`directions, this`desiredDirections, this`activeBindings, this`desiredBindings, this`selected
      ensures Valid() && Settled()
      ensures forall i | 0 <= i < |plan.controls| :: !activeBindings[i] && directions[i] == NEUTRAL
    {
      hide TouchEngine.Valid, LaidOut, HeldAfter, AllSettled, AimsFit, Plan.ActionValid;
      var n := |plan.controls|;
      directions := seq(n, i => NEUTRAL);
      desiredDirections := seq(n, i => NEUTRAL);
      activeBindings := seq(n, i => false);
      desiredBindings := seq(n, i => false);
      selected := seq(PHYSICAL_INPUT_COUNT, k => None);
      FreshSettled(plan, activeBindings, directions);
    }

    // Whatever state the runtime is in, the inputs are forgotten and every controller is idle
    // afterwards; and unless the device refused a write, nothing is left on the screen.
    method Suspend() returns (r: Result<(), EngineError>)
      requires Valid()
      modifies this, engine, engine.injector, engine.injector.sink
      ensures Valid() && Settled() && AllIdle(aims)
      ensures HeldNow() == NOTHING_HELD && history == old(history) + [Suspended]
      ensures forall i | 0 <= i < |plan.controls| :: !activeBindings[i] && directions[i] == NEUTRAL
      ensures r.Ok? ==> engine.contacts == map[] && Grounded()
      ensures r.Err? ==> DeviceRefused(r) && engine.injector.sink.failures > old(engine.injector.sink.failures)
      ensures DeviceRefused(r) ==> !engine.injector.sink.reliable
    {
      hide TouchEngine.Valid, LaidOut, HeldAfter, AllSettled, AllGrounded, AllIdle, Plan.Valid, AimsFit;
      var error := CancelAims();
      var cancelled := engine.CancelAll();
      if cancelled.Err? && error.None? {
        error := Some(cancelled.error);
      }
      ForgetInputs();
      ForgetOwnership();
      if error.Some? {
        return Err(error.value);
      }
      IdleGrounded(plan, pointContacts, cursorContact, activeBindings, directions, aims);
      return Ok(());
    }
  }

  // ---------------------------------------------------------------------------------------
  // What holds after every successful event.

  // With nothing held, no hold binding and no hold joystick has a contact on the screen, whatever
  // happened before and in whichever order.
  lemma NoStuckTouch(runtime: UnifiedRuntime, i: nat)
    requires runtime.Valid() && runtime.Grounded() && runtime.Settled() && i < |runtime.plan.controls|
    requires forall key: Key :: !KeyHeld(runtime.history, key)
    requires forall button: Button :: !ButtonHeld(runtime.history, button)
    ensures runtime.plan.controls[i].action.Hold? ==>
              !runtime.activeBindings[i] && runtime.pointContacts[i].Some?
              && runtime.pointContacts[i].value !in runtime.engine.contacts
    ensures runtime.plan.controls[i].action.Steer? && runtime.plan.controls[i].action.mode == HoldMode ==>
              runtime.directions[i] == NEUTRAL
                  && runtime.plan.controls[i].action.joystick.contact !in runtime.engine.contacts
  {
    var plan := runtime.plan;
    hide TouchEngine.Valid, LaidOut, HeldAfter, HoldWanted, DirectionWanted, AimsFit;
    NothingHeldNothingWanted(plan, runtime.history, i, runtime.directions[i]);
    SettledOne(plan, runtime.activeBindings, runtime.directions, runtime.HeldNow(), i);
    GroundedOne(plan.controls, runtime.pointContacts, runtime.cursorContact, runtime.activeBindings, runtime.directions,
                runtime.aims, runtime.engine.contacts, i);
  }

  // With hold layers only, two runtimes in which the same inputs are held show the same hold
  // bindings and hold joysticks, however they got there.
  lemma SameHeldSameTouches(one: UnifiedRuntime, other: UnifiedRuntime, i: nat)
    requires one.Valid() && one.Grounded() && one.Settled()
    requires other.Valid() && other.Grounded() && other.Settled()
    requires one.plan == other.plan && one.pointContacts == other.pointContacts && HoldLayersOnly(one.plan)
    requires i < |one.plan.controls|
    requires forall key: Key :: KeyHeld(one.history, key) <==> KeyHeld(other.history, key)
    requires forall button: Button :: ButtonHeld(one.history, button) <==> ButtonHeld(other.history, button)
    ensures one.HeldNow() == other.HeldNow()
    ensures one.plan.controls[i].action.Hold? ==>
              one.activeBindings[i] == other.activeBindings[i] && one.pointContacts[i].Some?
              && (one.pointContacts[i].value in one.engine.contacts <==>
                  one.pointContacts[i].value in other.engine.contacts)
    ensures one.plan.controls[i].action.Steer? && one.plan.controls[i].action.mode == HoldMode ==>
              && one.directions[i] == other.directions[i]
              && PositionOf(one.engine.contacts, one.plan.controls[i].action.joystick.contact)
                 == PositionOf(other.engine.contacts, one.plan.controls[i].action.joystick.contact)
  {
    var plan := one.plan;
    hide TouchEngine.Valid, LaidOut, HeldAfter, HoldWanted, AimsFit, KeyWanted, BindingAvailable;
    HistoryIndependence(plan, one.history, other.history);
    SettledOne(plan, one.activeBindings, one.directions, one.HeldNow(), i);
    SettledOne(plan, other.activeBindings, other.directions, other.HeldNow(), i);
    GroundedOne(plan.controls, one.pointContacts, one.cursorContact, one.activeBindings, one.directions,
                one.aims, one.engine.contacts, i);
    GroundedOne(plan.controls, other.pointContacts, other.cursorContact, other.activeBindings, other.directions,
                other.aims, other.engine.contacts, i);
  }
}
