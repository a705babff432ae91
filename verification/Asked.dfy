// What the history of inputs asks of a plan, said without the dispatcher's own decisions: which bindings
// answer an input, which holds and directions are wanted, what a press fires, and what the screen shows
// (crates/wroid-inject/src/game_session.rs).

module Asked {
  import opened Wrappers
  import opened Touch
  import opened Injector
  import opened AimControl
  import opened Controls
  import opened ContactDrivers
  import opened Ownership

  // ---------------------------------------------------------------------------------------
  // Which bindings answer an input

  ghost predicate Names(binding: Binding, input: Input) {
    match input
    case KeyInput(key) =>
      || binding == OnKey(key)
      || (binding.OnCluster? && (key == binding.up || key == binding.left || key == binding.down
                                 || key == binding.right))
    case ButtonInput(button) => binding == OnButton(button)
  }

  ghost predicate LayerIsOn(plan: Plan, history: seq<HostInput>, layer: LayerId)
    requires |plan.layerControls| == KEY_COUNT
  {
    1 <= layer <= 64 && LayerOn(plan, history, layer - 1)
  }

  // Control i lies in the greatest layer that is on and names the input, or in base if none does.
  ghost predicate InOwningLayer(plan: Plan, history: seq<HostInput>, i: nat, input: Input)
    requires |plan.layerControls| == KEY_COUNT && i < |plan.controls|
  {
    var controls, layer := plan.controls, plan.controls[i].layer;
    && (layer == 0 || LayerIsOn(plan, history, layer))
    && forall j | 0 <= j < |controls| && Names(controls[j].binding, input)
                  && LayerIsOn(plan, history, controls[j].layer) ::
         controls[j].layer <= layer
  }

  // Its modifier is held; or if it has none, no control beside it has one that is held.
  ghost predicate ModifierFits(plan: Plan, history: seq<HostInput>, i: nat, input: Input)
    requires i < |plan.controls|
  {
    var controls, control := plan.controls, plan.controls[i];
    if control.modifier.Some? then KeyHeld(history, control.modifier.value)
    else forall j | 0 <= j < |controls| && Names(controls[j].binding, input) && controls[j].layer == control.layer
                    && controls[j].modifier.Some? ::
           !KeyHeld(history, controls[j].modifier.value)
  }

  ghost predicate Answers(plan: Plan, history: seq<HostInput>, i: nat, input: Input)
    requires |plan.layerControls| == KEY_COUNT && i < |plan.controls|
  {
    InOwningLayer(plan, history, i, input) && ModifierFits(plan, history, i, input)
  }

  lemma NamesIffBinds(control: Control, input: Input)
    ensures Names(control.binding, input) <==> control.Binds(input)
  {
  }

  // The dispatcher's test for a binding is that it answers.
  lemma AnswersIffAvailable(plan: Plan, history: seq<HostInput>, i: nat, input: Input)
    requires plan.Valid() && plan.Prepared() && i < |plan.controls| && Names(plan.controls[i].binding, input)
    ensures BindingAvailable(plan.controls, plan.controls[i], input, HeldAfter(plan, history))
       <==> Answers(plan, history, i, input)
  {
    HeldCharacterized(plan, history);
    OwningLayerIffOwner(plan, history, i, input);
    ModifierFitsIffUnsuppressed(plan, history, i, input);
  }

  lemma OwningLayerIffOwner(plan: Plan, history: seq<HostInput>, i: nat, input: Input)
    requires plan.Valid() && i < |plan.controls| && Names(plan.controls[i].binding, input)
    requires forall bit: nat :: bit in HeldAfter(plan, history).layers <==> LayerOn(plan, history, bit)
    ensures var layer, layers := plan.controls[i].layer, HeldAfter(plan, history).layers;
            var owner := Owner(plan.controls, layers, input);
            InOwningLayer(plan, history, i, input) <==>
              && (layer == BASE || LayerActive(layer, layers))
              && !(owner.Some? && (layer == BASE || layer < owner.value))
  {
    var controls, layers := plan.controls, HeldAfter(plan, history).layers;
    hide LayerOn, HeldAfter;
    OwnerIsGreatest(controls, |controls|, layers, input);
    forall j | 0 <= j < |controls|
      ensures Claims(controls[j], layers, input)
         <==> Names(controls[j].binding, input) && LayerIsOn(plan, history, controls[j].layer)
    {
      NamesIffBinds(controls[j], input);
    }
  }

  lemma ModifierFitsIffUnsuppressed(plan: Plan, history: seq<HostInput>, i: nat, input: Input)
    requires plan.Valid() && plan.Prepared() && i < |plan.controls| && Names(plan.controls[i].binding, input)
    requires HeldAfter(plan, history).modifiers == HeldAfter(plan, history).keys * plan.modifierKeys
    requires forall key: Key :: key in HeldAfter(plan, history).keys <==> KeyHeld(history, key)
    ensures var control, modifiers := plan.controls[i], HeldAfter(plan, history).modifiers;
            ModifierFits(plan, history, i, input) <==>
              && (control.modifier.Some? ==> control.modifier.value in modifiers)
              && !control.IsSuppressed(input, modifiers)
  {
    var controls, control, modifiers := plan.controls, plan.controls[i], HeldAfter(plan, history).modifiers;
    hide HeldAfter, KeyHeld;
    if control.modifier.None? {
      NamesIffBinds(control, input);
      assert SuppressesFor(controls, i, control.suppressors);
      if control.IsSuppressed(input, modifiers) {
        var modifier :| modifier in control.suppressors[input] * modifiers;
        assert SiblingModifier(controls, i, |controls|, input, modifier);
        var j :| 0 <= j < |controls| && Sibling(controls, i, j, input) && controls[j].modifier == Some(modifier);
        NamesIffBinds(controls[j], input);
      } else {
        forall j | 0 <= j < |controls| && Names(controls[j].binding, input) && controls[j].layer == control.layer
                   && controls[j].modifier.Some?
          ensures controls[j].modifier.value !in modifiers
        {
          NamesIffBinds(controls[j], input);
          assert Sibling(controls, i, j, input);
          assert SiblingModifier(controls, i, |controls|, input, controls[j].modifier.value);
        }
      }
    }
  }

  // ---------------------------------------------------------------------------------------
  // What is wanted

  // A held key that is no layer's, on a control that answers it.
  ghost predicate AsksKey(plan: Plan, history: seq<HostInput>, i: nat, key: Key)
    requires |plan.layerControls| == KEY_COUNT && i < |plan.controls|
  {
    KeyHeld(history, key) && plan.layerControls[key].None? && Answers(plan, history, i, KeyInput(key))
  }

  ghost predicate AsksHold(plan: Plan, history: seq<HostInput>, i: nat)
    requires |plan.layerControls| == KEY_COUNT && i < |plan.controls|
  {
    match plan.controls[i].binding
    case OnKey(key) => AsksKey(plan, history, i, key)
    case OnButton(button) => ButtonHeld(history, button) && Answers(plan, history, i, ButtonInput(button))
    case _ => false
  }

  // A hold stick goes where the held keys of its cluster say; a toggle stick loses what no longer answers.
  ghost predicate SteersAsAsked(plan: Plan, history: seq<HostInput>, i: nat, before: Direction, after: Direction)
    requires |plan.layerControls| == KEY_COUNT && i < |plan.controls| && plan.controls[i].action.Steer?
  {
    match plan.controls[i].binding
    case OnCluster(up, left, down, right) =>
      if plan.controls[i].action.mode == HoldMode then
        && (after.up <==> AsksKey(plan, history, i, up)) && (after.left <==> AsksKey(plan, history, i, left))
        && (after.down <==> AsksKey(plan, history, i, down)) && (after.right <==> AsksKey(plan, history, i, right))
      else
        && (after.up <==> before.up && Answers(plan, history, i, KeyInput(up)))
        && (after.left <==> before.left && Answers(plan, history, i, KeyInput(left)))
        && (after.down <==> before.down && Answers(plan, history, i, KeyInput(down)))
        && (after.right <==> before.right && Answers(plan, history, i, KeyInput(right)))
    case _ => after == NEUTRAL
  }

  lemma HoldRead(plan: Plan, history: seq<HostInput>, i: nat)
    requires plan.Valid() && plan.Prepared() && i < |plan.controls| && plan.controls[i].action.Hold?
    ensures HoldWanted(plan, plan.controls[i], HeldAfter(plan, history)) <==> AsksHold(plan, history, i)
  {
    hide HeldAfter, Answers, BindingAvailable, KeyHeld, ButtonHeld;
    HeldCharacterized(plan, history);
    match plan.controls[i].binding
    case OnKey(key) => AnswersIffAvailable(plan, history, i, KeyInput(key));
    case OnButton(button) => AnswersIffAvailable(plan, history, i, ButtonInput(button));
    case _ =>
  }

  lemma DirectionRead(plan: Plan, history: seq<HostInput>, i: nat, current: Direction)
    requires plan.Valid() && plan.Prepared() && i < |plan.controls| && plan.controls[i].action.Steer?
    ensures SteersAsAsked(plan, history, i, current,
                          DirectionWanted(plan, plan.controls[i], current, HeldAfter(plan, history)))
  {
    hide HeldAfter, Answers, BindingAvailable, KeyHeld;
    HeldCharacterized(plan, history);
    if plan.controls[i].binding.OnCluster? {
      var OnCluster(up, left, down, right) := plan.controls[i].binding;
      AnswersIffAvailable(plan, history, i, KeyInput(up));
      AnswersIffAvailable(plan, history, i, KeyInput(left));
      AnswersIffAvailable(plan, history, i, KeyInput(down));
      AnswersIffAvailable(plan, history, i, KeyInput(right));
    }
  }

  // ---------------------------------------------------------------------------------------
  // What the screen shows

  // The nine targets are the rows above, at and below the centre, each from left to right; directions that
  // oppose each other cancel out.
  ghost predicate StickShown(joystick: Joystick, direction: Direction, contacts: Contacts)
    requires |joystick.targets| == 9
  {
    var row := if direction.up == direction.down then 3 else if direction.up then 0 else 6;
    var column := if direction.left == direction.right then 1 else if direction.left then 0 else 2;
    if row + column == 4 then joystick.contact !in contacts
    else joystick.contact in contacts && contacts[joystick.contact] == joystick.targets[row + column]
  }

  // A hold contact is down, at its point, exactly if it is asked for; a stick is where its directions say,
  // and those are what is asked for.
  ghost predicate Follows(plan: Plan, history: seq<HostInput>, i: nat, point: Option<ContactId>, direction: Direction,
                          contacts: Contacts)
    requires |plan.layerControls| == KEY_COUNT && i < |plan.controls|
  {
    match plan.controls[i].action
    case Hold(at) =>
      && point.Some? && (point.value in contacts <==> AsksHold(plan, history, i))
      && (point.value in contacts ==> contacts[point.value] == at)
    case Steer(joystick, _) =>
      && |joystick.targets| == 9 && StickShown(joystick, direction, contacts)
      && SteersAsAsked(plan, history, i, direction, direction)
    case _ => true
  }

  ghost predicate AllFollow(plan: Plan, history: seq<HostInput>, points: seq<Option<ContactId>>,
                            directions: seq<Direction>, contacts: Contacts)
    requires |plan.layerControls| == KEY_COUNT && |points| == |directions| == |plan.controls|
  {
    forall i | 0 <= i < |plan.controls| :: Follows(plan, history, i, points[i], directions[i], contacts)
  }

  // A settled state in agreement with the engine shows what is asked for.
  lemma SettledFollows(plan: Plan, history: seq<HostInput>, points: seq<Option<ContactId>>, cursor: ContactId,
                       active: seq<bool>, directions: seq<Direction>, aims: seq<Option<AimController>>,
                       contacts: Contacts)
    requires plan.Valid() && plan.Prepared()
    requires |plan.controls| == |points| == |active| == |directions| == |aims|
    requires AllGrounded(plan.controls, points, cursor, active, directions, aims, contacts)
    requires AllSettled(plan, active, directions, HeldAfter(plan, history))
    ensures AllFollow(plan, history, points, directions, contacts)
  {
    hide AllGrounded, AllSettled, HeldAfter, HoldWanted, DirectionWanted, AsksHold, SteersAsAsked;
    forall i | 0 <= i < |plan.controls|
      ensures Follows(plan, history, i, points[i], directions[i], contacts)
    {
      GroundedOne(plan.controls, points, cursor, active, directions, aims, contacts, i);
      SettledOne(plan, active, directions, HeldAfter(plan, history), i);
      if plan.controls[i].action.Hold? {
        HoldRead(plan, history, i);
      } else if plan.controls[i].action.Steer? {
        DirectionRead(plan, history, i, directions[i]);
      }
    }
  }

  // For instance: a hold stick of whose keys only the one for up is held, and answers, is at its upper
  // target.
  lemma OnlyUpShowsUp(plan: Plan, history: seq<HostInput>, i: nat, point: Option<ContactId>, direction: Direction,
                      contacts: Contacts)
    requires |plan.layerControls| == KEY_COUNT && i < |plan.controls|
    requires Follows(plan, history, i, point, direction, contacts)
    requires plan.controls[i].action.Steer? && plan.controls[i].action.mode == HoldMode
    requires plan.controls[i].binding.OnCluster? && AsksKey(plan, history, i, plan.controls[i].binding.up)
    requires var OnCluster(up, left, down, right) := plan.controls[i].binding;
             !KeyHeld(history, left) && !KeyHeld(history, down) && !KeyHeld(history, right)
    ensures var joystick := plan.controls[i].action.joystick;
            joystick.contact in contacts && contacts[joystick.contact] == joystick.targets[1]
  {
  }

  // ---------------------------------------------------------------------------------------
  // What a press fires

  ghost predicate TapNames(binding: Binding, input: Input) {
    match input
    case KeyInput(key) => binding == OnKey(key)
    case ButtonInput(button) => binding == OnButton(button)
  }

  // Everything that was sent on one contact.
  function EventsOn(frames: seq<Frame>, contact: ContactId): seq<TouchEvent>
    decreases |frames|
  {
    if frames == [] then [] else EventsOn(frames[..|frames| - 1], contact) + EventsIn(frames[|frames| - 1], contact)
  }

  function EventsIn(frame: Frame, contact: ContactId): seq<TouchEvent>
    decreases |frame|
  {
    if frame == [] then []
    else EventsIn(frame[..|frame| - 1], contact)
         + if frame[|frame| - 1].contact == contact then [frame[|frame| - 1]] else []
  }

  // A tap bound to the input goes down and up once, at its point, exactly if it answers.
  ghost predicate TapsAsAsked(plan: Plan, history: seq<HostInput>, i: nat, point: Option<ContactId>, input: Input,
                              sent: seq<Frame>)
    requires |plan.layerControls| == KEY_COUNT && i < |plan.controls| && plan.controls[i].action.Tap?
  {
    var at := plan.controls[i].action.point;
    && point.Some?
    && EventsOn(sent, point.value)
       == if TapNames(plan.controls[i].binding, input) && Answers(plan, history, i, input)
          then [TouchEvent(point.value, Down, at), TouchEvent(point.value, Up, at)] else []
  }

  ghost predicate AllTapsAsAsked(plan: Plan, history: seq<HostInput>, points: seq<Option<ContactId>>, input: Input,
                                sent: seq<Frame>)
    requires |plan.layerControls| == KEY_COUNT && |points| == |plan.controls|
  {
    forall i | 0 <= i < |plan.controls| && plan.controls[i].action.Tap? ::
      TapsAsAsked(plan, history, i, points[i], input, sent)
  }

  // A direction of a toggle stick changes exactly if its own key was pressed, and answers.
  ghost predicate FlipsAsAsked(plan: Plan, history: seq<HostInput>, i: nat, input: Input, before: Direction,
                               after: Direction)
    requires |plan.layerControls| == KEY_COUNT && i < |plan.controls|
  {
    var control := plan.controls[i];
    if control.action.Steer? && control.action.mode == ToggleMode && control.binding.OnCluster? then
      var OnCluster(up, left, down, right) := control.binding;
      && (after.up != before.up <==> input == KeyInput(up) && Answers(plan, history, i, input))
      && (after.left != before.left <==> input == KeyInput(left) && Answers(plan, history, i, input))
      && (after.down != before.down <==> input == KeyInput(down) && Answers(plan, history, i, input))
      && (after.right != before.right <==> input == KeyInput(right) && Answers(plan, history, i, input))
    else after == before
  }

  ghost predicate AllFlipsAsAsked(plan: Plan, history: seq<HostInput>, input: Input, before: seq<Direction>,
                                 after: seq<Direction>)
    requires |plan.layerControls| == KEY_COUNT && |before| == |after| == |plan.controls|
  {
    forall i | 0 <= i < |plan.controls| :: FlipsAsAsked(plan, history, i, input, before[i], after[i])
  }

  // So two presses of a key that answers both restore every direction, and one does not.
  lemma TwoPressesRestore(plan: Plan, one: seq<HostInput>, other: seq<HostInput>, i: nat, key: Key, start: Direction,
                          between: Direction, end: Direction)
    requires |plan.layerControls| == KEY_COUNT && i < |plan.controls|
    requires plan.controls[i].action.Steer? && plan.controls[i].action.mode == ToggleMode
    requires plan.controls[i].binding.OnCluster? && Names(plan.controls[i].binding, KeyInput(key))
    requires Answers(plan, one, i, KeyInput(key)) && Answers(plan, other, i, KeyInput(key))
    requires FlipsAsAsked(plan, one, i, KeyInput(key), start, between)
    requires FlipsAsAsked(plan, other, i, KeyInput(key), between, end)
    ensures end == start && between != start
  {
  }

  lemma ToggledRead(plan: Plan, history: seq<HostInput>, i: nat, input: Input, current: Direction)
    requires plan.Valid() && plan.Prepared() && i < |plan.controls|
    ensures FlipsAsAsked(plan, history, i, input, current,
                         Toggled(plan, plan.controls[i], current, input, HeldAfter(plan, history)))
  {
    hide HeldAfter, Answers, BindingAvailable;
    if Names(plan.controls[i].binding, input) {
      AnswersIffAvailable(plan, history, i, input);
    }
  }

  lemma FiresTapRead(plan: Plan, history: seq<HostInput>, i: nat, input: Input)
    requires plan.Valid() && plan.Prepared() && i < |plan.controls| && plan.controls[i].action.Tap?
    ensures FiresTap(plan, plan.controls[i], input, HeldAfter(plan, history))
       <==> TapNames(plan.controls[i].binding, input) && Answers(plan, history, i, input)
  {
    hide HeldAfter, Answers, BindingAvailable;
    if Names(plan.controls[i].binding, input) {
      AnswersIffAvailable(plan, history, i, input);
    }
  }

  lemma {:induction false} EventsConcat(front: seq<Frame>, back: seq<Frame>, contact: ContactId)
    ensures EventsOn(front + back, contact) == EventsOn(front, contact) + EventsOn(back, contact)
    decreases |back|
  {
    if back == [] {
      assert front + back == front;
    } else {
      var last := |back| - 1;
      assert (front + back)[..|front + back| - 1] == front + back[..last];
      EventsConcat(front, back[..last], contact);
    }
  }

  lemma SingleEvents(on: ContactId, phase: Phase, position: Point, contact: ContactId)
    ensures EventsOn([Single(on, phase, position)], contact)
         == if on == contact then [TouchEvent(on, phase, position)] else []
  {
    var frame := Single(on, phase, position);
    var frames: seq<Frame> := [frame];
    assert frame[..0] == [] && frames[..0] == [];
    assert EventsIn(frame[..0], contact) == [] && EventsOn(frames[..0], contact) == [];
    assert EventsOn(frames, contact) == EventsIn(frame, contact);
  }

  lemma TapEvents(on: ContactId, at: Point, contact: ContactId)
    ensures EventsOn(TapFrames(on, at), contact)
         == if on == contact then [TouchEvent(on, Down, at), TouchEvent(on, Up, at)] else []
  {
    SingleEvents(on, Down, at, contact);
    SingleEvents(on, Up, at, contact);
    assert TapFrames(on, at) == [Single(on, Down, at)] + [Single(on, Up, at)];
    EventsConcat([Single(on, Down, at)], [Single(on, Up, at)], contact);
  }

  lemma SteerEvents(on: ContactId, current: Option<Point>, target: Option<Point>, contact: ContactId)
    requires on != contact
    ensures EventsOn(SteerFrames(on, current, target), contact) == []
  {
    if current != target {
      if current.None? {
        SingleEvents(on, Down, target.value, contact);
      } else if target.None? {
        SingleEvents(on, Up, current.value, contact);
      } else {
        SingleEvents(on, Move, target.value, contact);
      }
    }
  }

  // What firing control j sends on the contact of tap i.
  lemma FiredEvents(plan: Plan, points: seq<Option<ContactId>>, cursor: ContactId, directions: seq<Direction>,
                    history: seq<HostInput>, input: Input, j: nat, i: nat)
    requires plan.Valid() && plan.Prepared() && LaidOut(plan.controls, points, cursor) && Fireable(plan, points)
    requires |directions| == |plan.controls| && i < |plan.controls| && j < |plan.controls|
    requires plan.controls[i].action.Tap?
    ensures var sent := Fired(plan, plan.controls[j], points[j], directions[j], input, HeldAfter(plan, history));
            if i == j then TapsAsAsked(plan, history, i, points[i], input, sent)
            else EventsOn(sent, points[i].value) == []
  {
    hide HeldAfter, Answers, BindingAvailable, FiresTap, TapFrames, SteerFrames, EventsOn, Toggled;
    if plan.controls[j].action.Tap? {
      TapEvents(points[j].value, plan.controls[j].action.point, points[i].value);
      NothingSent(points[i].value);
      if i == j {
        FiresTapRead(plan, history, i, input);
      } else {
        ApartFrom(plan.controls, points, cursor, i, j);
      }
    } else if plan.controls[j].action.Steer? {
      ApartFrom(plan.controls, points, cursor, i, j);
      var stick, current := plan.controls[j].action.joystick, directions[j];
      var next := Toggled(plan, plan.controls[j], current, input, HeldAfter(plan, history));
      SteerEvents(stick.contact, stick.Target(current), stick.Target(next), points[i].value);
    } else {
      NothingSent(points[i].value);
    }
  }

  lemma NothingSent(contact: ContactId)
    ensures EventsOn([], contact) == []
  {
  }

  lemma ApartFrom(controls: seq<Control>, points: seq<Option<ContactId>>, cursor: ContactId, i: nat, j: nat)
    requires LaidOut(controls, points, cursor) && i < |controls| && j < |controls| && i != j
    ensures ContactsOf(controls[i], points[i]) !! ContactsOf(controls[j], points[j])
  {
  }

  // So what is fired is what is asked for: tap by tap ...
  lemma {:induction false} FiredRead(plan: Plan, points: seq<Option<ContactId>>, cursor: ContactId,
                                     directions: seq<Direction>, history: seq<HostInput>, input: Input, n: nat, i: nat)
    requires plan.Valid() && plan.Prepared() && LaidOut(plan.controls, points, cursor) && Fireable(plan, points)
    requires n <= |directions| == |plan.controls| && i < |plan.controls| && plan.controls[i].action.Tap?
    ensures var sent := FiredUpTo(plan, points, directions, input, HeldAfter(plan, history), n);
            if i < n then TapsAsAsked(plan, history, i, points[i], input, sent)
            else EventsOn(sent, points[i].value) == []
  {
    hide HeldAfter, Answers, Fired, TapNames, EventsOn, LaidOut;
    if n == 0 {
      NothingSent(points[i].value);
    } else {
      FiredRead(plan, points, cursor, directions, history, input, n - 1, i);
      FiredEvents(plan, points, cursor, directions, history, input, n - 1, i);
      EventsConcat(FiredUpTo(plan, points, directions, input, HeldAfter(plan, history), n - 1),
                   Fired(plan, plan.controls[n - 1], points[n - 1], directions[n - 1], input,
                         HeldAfter(plan, history)), points[i].value);
    }
  }

  // ... and direction by direction.
  lemma PressRead(plan: Plan, points: seq<Option<ContactId>>, cursor: ContactId, directions: seq<Direction>,
                  history: seq<HostInput>, input: Input)
    requires plan.Valid() && plan.Prepared() && LaidOut(plan.controls, points, cursor) && Fireable(plan, points)
    requires |directions| == |plan.controls|
    ensures var held, n := HeldAfter(plan, history), |plan.controls|;
            && AllTapsAsAsked(plan, history, points, input, FiredUpTo(plan, points, directions, input, held, n))
            && AllFlipsAsAsked(plan, history, input, directions, ToggledUpTo(plan, directions, input, held, n))
  {
    hide HeldAfter, Toggled, FiredUpTo, TapsAsAsked, FlipsAsAsked, LaidOut;
    forall i | 0 <= i < |plan.controls| && plan.controls[i].action.Tap?
      ensures TapsAsAsked(plan, history, i, points[i], input,
                          FiredUpTo(plan, points, directions, input, HeldAfter(plan, history), |plan.controls|))
    {
      FiredRead(plan, points, cursor, directions, history, input, |plan.controls|, i);
    }
    forall i | 0 <= i < |plan.controls|
      ensures FlipsAsAsked(plan, history, i, input, directions[i],
                           ToggledUpTo(plan, directions, input, HeldAfter(plan, history), |plan.controls|)[i])
    {
      ToggledRead(plan, history, i, input, directions[i]);
    }
  }

  ghost predicate AllSteerAsAsked(plan: Plan, history: seq<HostInput>, before: seq<Direction>, after: seq<Direction>)
    requires |plan.layerControls| == KEY_COUNT && |before| == |after| == |plan.controls|
  {
    forall i | 0 <= i < |plan.controls| && plan.controls[i].action.Steer? ::
      SteersAsAsked(plan, history, i, before[i], after[i])
  }

  // What a pass makes of the directions.
  lemma PassRead(plan: Plan, history: seq<HostInput>, before: seq<Direction>, passed: seq<Direction>)
    requires plan.Valid() && plan.Prepared() && |before| == |passed| == |plan.controls|
    requires PassedFrom(plan, before, HeldAfter(plan, history), passed)
    ensures AllSteerAsAsked(plan, history, before, passed)
  {
    hide HeldAfter, SteersAsAsked, DirectionWanted;
    forall i | 0 <= i < |plan.controls| && plan.controls[i].action.Steer?
      ensures SteersAsAsked(plan, history, i, before[i], passed[i])
    {
      DirectionRead(plan, history, i, before[i]);
    }
  }

  // Every stick that is due and down, among the first n controls, was sent once to where it is.
  ghost predicate Repeats(controls: seq<Control>, due: seq<bool>, contacts: Contacts, sent: seq<Frame>, n: nat)
    requires |due| == |controls|
  {
    forall j | 0 <= j < |controls| && controls[j].action.Steer? ::
      var contact := controls[j].action.joystick.contact;
      EventsOn(sent, contact) ==
        if j < n && due[j] && contact in contacts then [TouchEvent(contact, Move, contacts[contact])] else []
  }

  lemma RepeatsNone(controls: seq<Control>, due: seq<bool>, contacts: Contacts, sent: seq<Frame>)
    requires |due| == |controls|
    ensures Repeats(controls, due, contacts, sent[|sent|..], 0)
  {
  }

  lemma RepeatsSkip(controls: seq<Control>, due: seq<bool>, contacts: Contacts, sent: seq<Frame>, n: nat)
    requires |due| == |controls| && n < |controls| && Repeats(controls, due, contacts, sent, n)
    requires controls[n].action.Steer? && due[n] ==> controls[n].action.joystick.contact !in contacts
    ensures Repeats(controls, due, contacts, sent, n + 1)
  {
  }

  lemma RepeatsStep(controls: seq<Control>, points: seq<Option<ContactId>>, cursor: ContactId, due: seq<bool>,
                    contacts: Contacts, start: nat, before: seq<Frame>, after: seq<Frame>, n: nat)
    requires LaidOut(controls, points, cursor) && |due| == |controls| && n < |controls| && start <= |before|
    requires Repeats(controls, due, contacts, before[start..], n)
    requires controls[n].action.Steer? && due[n] && controls[n].action.joystick.contact in contacts
    requires var contact := controls[n].action.joystick.contact;
             after == before + [Single(contact, Move, contacts[contact])]
    ensures Repeats(controls, due, contacts, after[start..], n + 1)
  {
    hide EventsOn;
    var contact := controls[n].action.joystick.contact;
    var last := [Single(contact, Move, contacts[contact])];
    assert after[start..] == before[start..] + last;
    forall j | 0 <= j < |controls| && controls[j].action.Steer?
      ensures var other := controls[j].action.joystick.contact;
              EventsOn(after[start..], other) ==
                if j < n + 1 && due[j] && other in contacts then [TouchEvent(other, Move, contacts[other])] else []
    {
      var other := controls[j].action.joystick.contact;
      if j != n {
        ApartFrom(controls, points, cursor, j, n);
      }
      EventsConcat(before[start..], last, other);
      SingleEvents(contact, Move, contacts[contact], other);
    }
  }

  // ---------------------------------------------------------------------------------------
  // What motion, the clock, a key and a switch do to the aim controllers, on their own contacts

  ghost predicate AimsMoved(before: seq<Option<AimController>>, dx: int, dy: int, due: seq<bool>, shown: Contacts,
                            after: seq<Option<AimController>>, contacts: Contacts) {
    && |before| == |after| == |due|
    && forall i | 0 <= i < |before| && before[i].Some? ::
         var aim := before[i].value;
         after[i].Some? && MovedBy(aim, dx, dy, due[i], Own(aim, shown), after[i].value, Own(aim, contacts))
  }

  ghost predicate AimsTicked(before: seq<Option<AimController>>, due: seq<bool>, shown: Contacts,
                             after: seq<Option<AimController>>, contacts: Contacts) {
    && |before| == |after| == |due|
    && forall i | 0 <= i < |before| ::
         if before[i].None? then after[i].None?
         else
           var aim := before[i].value;
           after[i].Some? && TickedBy(aim, due[i], Own(aim, shown), after[i].value, Own(aim, contacts))
  }

  // A controller whose toggle key was pressed is put down at its origin, or lifted; the others stay.
  ghost predicate AimsToggled(controls: seq<Control>, key: Key, before: seq<Option<AimController>>, shown: Contacts,
                              after: seq<Option<AimController>>, contacts: Contacts) {
    && |controls| == |before| == |after|
    && forall i | 0 <= i < |controls| && controls[i].action.Aim? && before[i].Some? ::
         var aim := before[i].value;
         && after[i].Some?
         && if controls[i].action.aim.toggleKey != Some(key) then
              after[i] == before[i] && Own(aim, contacts) == Own(aim, shown)
            else if aim.IsActive() then Ended(after[i].value, Own(aim, contacts))
            else Begun(after[i].value, Own(aim, contacts))
  }

  // Switching aim on puts down, at its origin, every controller that was not aiming and has no toggle key
  // or is asked for; the others stay.
  ghost predicate AimsRestored(controls: seq<Control>, before: seq<Option<AimController>>, reactivate: bool,
                               shown: Contacts, after: seq<Option<AimController>>, contacts: Contacts) {
    && |controls| == |before| == |after|
    && forall i | 0 <= i < |controls| && controls[i].action.Aim? && before[i].Some? ::
         var aim := before[i].value;
         && after[i].Some?
         && if aim.IsActive() || (controls[i].action.aim.toggleKey.Some? && !reactivate) then
              after[i] == before[i] && Own(aim, contacts) == Own(aim, shown)
            else Begun(after[i].value, Own(aim, contacts))
  }

  lemma CommandedToggles(controls: seq<Control>, key: Key, before: seq<Option<AimController>>,
                         commands: seq<Option<AimCommand>>, shown: Contacts, after: seq<Option<AimController>>,
                         contacts: Contacts)
    requires |controls| == |before| == |commands| == |after|
    requires Commanded(before, commands, shown, after, contacts, |before|)
    requires forall i | 0 <= i < |controls| && controls[i].action.Aim? ::
               commands[i] == if controls[i].action.aim.toggleKey == Some(key) then Some(Toggle) else None
    ensures AimsToggled(controls, key, before, shown, after, contacts)
  {
    hide Own, Begun, Ended;
  }

  lemma CommandedRestores(controls: seq<Control>, reactivate: bool, before: seq<Option<AimController>>,
                          commands: seq<Option<AimCommand>>, shown: Contacts, after: seq<Option<AimController>>,
                          contacts: Contacts)
    requires |controls| == |before| == |commands| == |after|
    requires Commanded(before, commands, shown, after, contacts, |before|)
    requires forall i | 0 <= i < |controls| && controls[i].action.Aim? && before[i].Some? ::
               commands[i] == if before[i].value.IsActive() || (controls[i].action.aim.toggleKey.Some? && !reactivate)
               then None else Some(Activate)
    ensures AimsRestored(controls, before, reactivate, shown, after, contacts)
  {
    hide Own, Begun;
  }

  lemma CommandedMoves(before: seq<Option<AimController>>, dx: int, dy: int, due: seq<bool>,
                       commands: seq<Option<AimCommand>>, shown: Contacts, after: seq<Option<AimController>>,
                       contacts: Contacts)
    requires |before| == |commands| == |after| == |due| && Commanded(before, commands, shown, after, contacts, |before|)
    requires forall i | 0 <= i < |before| && before[i].Some? :: commands[i] == Some(MoveBy(dx, dy, due[i]))
    ensures AimsMoved(before, dx, dy, due, shown, after, contacts)
  {
    hide Own, MovedBy;
  }

  lemma CommandedTicks(before: seq<Option<AimController>>, due: seq<bool>, commands: seq<Option<AimCommand>>,
                       shown: Contacts, after: seq<Option<AimController>>, contacts: Contacts)
    requires |before| == |commands| == |after| == |due| && Commanded(before, commands, shown, after, contacts, |before|)
    requires forall i | 0 <= i < |before| && before[i].Some? :: commands[i] == Some(TickBy(due[i]))
    ensures AimsTicked(before, due, shown, after, contacts)
  {
    hide Own, TickedBy;
  }

  // So no pause outlasts its time.
  lemma TickedNoneOverdue(before: seq<Option<AimController>>, due: seq<bool>, shown: Contacts,
                          after: seq<Option<AimController>>, contacts: Contacts)
    requires AimsTicked(before, due, shown, after, contacts)
    ensures |after| == |due| && forall i | 0 <= i < |due| && after[i].Some? && due[i] :: after[i].value.pending.None?
  {
    hide Own;
  }

  // Nothing outside the controllers' contacts matters to them.
  lemma OwnElsewhere(controls: seq<Control>, points: seq<Option<ContactId>>, cursor: ContactId, aim: AimController,
                     i: nat, before: Contacts, after: Contacts)
    requires LaidOut(controls, points, cursor) && i < |controls| && controls[i].action.Aim?
    requires aim.spec == controls[i].action.aim
    requires SameOutside(before, after, ManagedUpTo(controls, points, |controls|))
    ensures Own(aim, after) == Own(aim, before)
  {
    forall c | c in aim.Ids() ensures PositionOf(after, c) == PositionOf(before, c) {
      ManagedHas(controls, points, |controls|, c);
      if j :|
            0 <= j < |controls| && (controls[j].action.Hold? || controls[j].action.Steer?)
            && c in ContactsOf(controls[j], points[j]) {
        ApartFrom(controls, points, cursor, i, j);
      }
    }
  }

  lemma ToggledElsewhere(controls: seq<Control>, points: seq<Option<ContactId>>, cursor: ContactId, key: Key,
                         before: seq<Option<AimController>>, shown: Contacts, start: Contacts,
                         after: seq<Option<AimController>>, contacts: Contacts, end: Contacts)
    requires LaidOut(controls, points, cursor) && AimsFit(controls, before)
    requires SameOutside(shown, start, ManagedUpTo(controls, points, |controls|))
    requires SameOutside(contacts, end, ManagedUpTo(controls, points, |controls|))
    requires AimsToggled(controls, key, before, start, after, contacts)
    ensures AimsToggled(controls, key, before, shown, after, end)
  {
    hide Own, Begun, Ended, SameOutside, LaidOut, AimController.Exact;
    forall i | 0 <= i < |controls| && controls[i].action.Aim? && before[i].Some?
      ensures Own(before[i].value, start) == Own(before[i].value, shown)
      ensures Own(before[i].value, end) == Own(before[i].value, contacts)
    {
      OwnElsewhere(controls, points, cursor, before[i].value, i, shown, start);
      OwnElsewhere(controls, points, cursor, before[i].value, i, contacts, end);
    }
  }
}
