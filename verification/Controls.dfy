// The control plan and the pure decisions the dispatcher takes from it: which layer owns an
// input, which bindings are available, what the held inputs ask for
// (crates/wroid-runtime/src/{profile_controls,joystick}.rs,
// crates/wroid-inject/src/game_session.rs).
// The u64 and u8 masks of the source appear as sets of bit indices.

module Controls {
  import opened AimMotion
  import opened Wrappers
  import opened Touch

  const KEY_COUNT := 46
  const PHYSICAL_INPUT_COUNT := 51

  type Key = k: int | 0 <= k < 46
  type Button = b: int | 0 <= b < 5

  datatype Input = KeyInput(key: Key) | ButtonInput(button: Button)

  function InputIndex(input: Input): (i: nat)
    ensures i < PHYSICAL_INPUT_COUNT && InputAt(i) == input
  {
    match input
    case KeyInput(key) => key
    case ButtonInput(button) => KEY_COUNT + button
  }

  function InputAt(i: nat): Input
    requires i < PHYSICAL_INPUT_COUNT
  {
    if i < KEY_COUNT then KeyInput(i) else ButtonInput(i - KEY_COUNT)
  }

  // ---------------------------------------------------------------------------------------
  // Layers

  type LayerId = U16

  const BASE: LayerId := 0

  // layer_mask_bit: only layers 1 to 64 have a bit.
  function LayerBit(layer: LayerId): Option<nat> {
    if 1 <= layer <= 64 then Some(layer - 1) else None
  }

  predicate LayerActive(layer: LayerId, layers: set<nat>) {
    LayerBit(layer).Some? && LayerBit(layer).value in layers
  }

  datatype LayerMode = HoldLayer | ToggleLayer

  datatype LayerControl = LayerControl(bit: nat, mode: LayerMode)

  // ---------------------------------------------------------------------------------------
  // Joysticks

  datatype Direction = Direction(up: bool, left: bool, down: bool, right: bool) {
    predicate Opposed() { (up && down) || (left && right) }

    function Intersect(other: Direction): Direction {
      Direction(up && other.up, left && other.left, down && other.down, right && other.right)
    }

    predicate Within(other: Direction) { Intersect(other) == this }

    // Nothing asked for, or only what opposes each other.
    predicate Rests() { Axis(left, right) == 0 == Axis(up, down) }
  }

  const NEUTRAL := Direction(false, false, false, false)

  function Axis(negative: bool, positive: bool): int {
    if negative == positive then 0 else if negative then -1 else 1
  }

  // The stick's geometry is floating point; only its eight target points matter here.
  datatype Joystick = Joystick(contact: ContactId, targets: seq<Point>) {
    function Target(direction: Direction): (r: Option<Point>)
      requires |targets| == 9
      ensures r.Some? ==> r.value in targets
    {
      var x, y := Axis(direction.left, direction.right), Axis(direction.up, direction.down);
      if direction.Rests() then None else Some(targets[(y + 1) * 3 + (x + 1)])
    }
  }

  datatype JoystickMode = HoldMode | ToggleMode

  // ---------------------------------------------------------------------------------------
  // Mouse aim: MouseAim and the MouseAimSettings that matter here.

  datatype MouseAim = MouseAim(contact: ContactId, alternate: ContactId, region: Region, origin: Point,
                               sensitivity: Sensitivity, multiplier: Option<Sensitivity>, thresholdMilli: U16,
                               toggleKey: Option<Key>, gap: bool) {
    predicate ValidFor(config: Config) {
      && contact != alternate
      && region.Within(config.width, config.height) && region.Contains(origin)
    }
  }

  // ---------------------------------------------------------------------------------------
  // Controls

  datatype Binding =
    | OnKey(key: Key)
    | OnCluster(up: Key, left: Key, down: Key, right: Key)
    | OnButton(button: Button)
    | OnMotion

  datatype Action =
    | Tap(point: Point)
    | Hold(point: Point)
    | Steer(joystick: Joystick, mode: JoystickMode)
    | Aim(aim: MouseAim)

  datatype Control = Control(layer: LayerId, modifier: Option<Key>, suppressors: map<Input, set<Key>>,
                             binding: Binding, action: Action) {
    predicate Binds(input: Input) {
      match binding
      case OnKey(key) => input == KeyInput(key)
      case OnCluster(up, left, down, right) =>
        input == KeyInput(up) || input == KeyInput(left) || input == KeyInput(down) || input == KeyInput(right)
      case OnButton(button) => input == ButtonInput(button)
      case OnMotion => false
    }

    predicate IsSuppressed(input: Input, modifiers: set<Key>) {
      modifier.None? && input in suppressors && suppressors[input] * modifiers != {}
    }

    // binding_condition_available
    predicate ConditionHolds(input: Input, held: Held) {
      && (layer == BASE || LayerActive(layer, held.layers))
      && (modifier.Some? ==> modifier.value in held.modifiers)
      && !IsSuppressed(input, held.modifiers)
    }

    // binding_available, given the layer that owns the input
    predicate Available(input: Input, held: Held, owner: Option<LayerId>) {
      && !(owner.Some? && (layer == BASE || layer < owner.value))
      && ConditionHolds(input, held)
    }
  }

  datatype Held = Held(keys: set<Key>, modifiers: set<Key>, buttons: set<Button>, layers: set<nat>)

  const NOTHING_HELD := Held({}, {}, {}, {})

  datatype Plan = Plan(controls: seq<Control>, layerControls: seq<Option<LayerControl>>, modifierKeys: set<Key>,
                       config: Config) {
    ghost predicate Valid() {
      && config.Valid()
      && |layerControls| == KEY_COUNT
      && (forall a: Key, b: Key | a != b ::
            layerControls[a].Some? && layerControls[b].Some? ==>
                layerControls[a].value.bit != layerControls[b].value.bit)
      && (forall i | 0 <= i < |controls| :: ActionValid(controls[i].action))
    }

    ghost predicate ActionValid(action: Action) {
      match action
      case Tap(point) => config.Contains(point)
      case Hold(point) => config.Contains(point)
      case Steer(joystick, _) => |joystick.targets| == 9 && forall p | p in joystick.targets :: config.Contains(p)
      case Aim(aim) => aim.ValidFor(config)
    }

    // What plan building sees to: suppression is computed, and modifiers are known as such.
    ghost predicate Prepared() {
      && SuppressionComputed(controls)
      && forall i | 0 <= i < |controls| && controls[i].modifier.Some? :: controls[i].modifier.value in modifierKeys
    }

    predicate Activates(key: Key)
      requires |layerControls| == KEY_COUNT
    {
      layerControls[key].Some?
    }
  }

  // ---------------------------------------------------------------------------------------
  // Which layer owns an input: refresh_selected_input_layers and select_input_layer.

  predicate Claims(control: Control, layers: set<nat>, input: Input) {
    control.layer != BASE && control.Binds(input) && LayerActive(control.layer, layers)
  }

  function OwnerUpTo(controls: seq<Control>, n: nat, layers: set<nat>, input: Input): Option<LayerId>
    requires n <= |controls|
  {
    if n == 0 then None
    else
      var owner := OwnerUpTo(controls, n - 1, layers, input);
      var control := controls[n - 1];
      if Claims(control, layers, input) && (owner.None? || control.layer > owner.value) then Some(control.layer)
      else owner
  }

  function Owner(controls: seq<Control>, layers: set<nat>, input: Input): Option<LayerId> {
    OwnerUpTo(controls, |controls|, layers, input)
  }

  // The owner is the greatest active layer that binds the input.
  lemma {:induction false} OwnerIsGreatest(controls: seq<Control>, n: nat, layers: set<nat>, input: Input)
    requires n <= |controls|
    ensures var owner := OwnerUpTo(controls, n, layers, input);
            && (owner.None? <==> forall i | 0 <= i < n :: !Claims(controls[i], layers, input))
            && (owner.Some? ==>
                  && (exists i :: 0 <= i < n && Claims(controls[i], layers, input) && controls[i].layer == owner.value)
                  && forall i | 0 <= i < n :: Claims(controls[i], layers, input) ==> controls[i].layer <= owner.value)
  {
    if n != 0 {
      OwnerIsGreatest(controls, n - 1, layers, input);
    }
  }

  predicate BindingAvailable(controls: seq<Control>, control: Control, input: Input, held: Held) {
    control.Available(input, held, Owner(controls, held.layers, input))
  }

  // Every binding available on an input it binds lies in the owning layer, or in base when no
  // layer owns the input.
  lemma LayerOwnership(controls: seq<Control>, i: nat, input: Input, held: Held)
    requires i < |controls| && controls[i].Binds(input)
    requires BindingAvailable(controls, controls[i], input, held)
    ensures match Owner(controls, held.layers, input)
            case None => controls[i].layer == BASE
            case Some(layer) => controls[i].layer == layer
  {
    OwnerIsGreatest(controls, |controls|, held.layers, input);
    assert controls[i].layer != BASE ==> Claims(controls[i], held.layers, input);
  }

  // ---------------------------------------------------------------------------------------
  // Sibling suppression: precompute_sibling_suppression.

  ghost predicate Sibling(controls: seq<Control>, i: nat, j: nat, input: Input)
    requires i < |controls| && j < |controls|
  {
    && controls[i].layer == controls[j].layer
    && controls[j].modifier.Some?
    && controls[i].Binds(input) && controls[j].Binds(input)
  }

  ghost predicate SuppressionComputed(controls: seq<Control>) {
    forall i | 0 <= i < |controls| && controls[i].modifier.None? :: SuppressesFor(controls, i, controls[i].suppressors)
  }

  ghost predicate SuppressesFor(controls: seq<Control>, i: nat, suppressors: map<Input, set<Key>>)
    requires i < |controls|
  {
    forall input, modifier: Key ::
      (input in suppressors && modifier in suppressors[input]) <==>
          SiblingModifier(controls, i, |controls|, input, modifier)
  }

  function BoundInputs(binding: Binding): (inputs: seq<Input>)
    ensures |inputs| <= 4
  {
    match binding
    case OnKey(key) => [KeyInput(key)]
    case OnCluster(up, left, down, right) => [KeyInput(up), KeyInput(left), KeyInput(down), KeyInput(right)]
    case OnButton(button) => [ButtonInput(button)]
    case OnMotion => []
  }

  ghost predicate SiblingModifier(controls: seq<Control>, i: nat, n: nat, input: Input, modifier: Key)
    requires i < |controls| && n <= |controls|
  {
    exists j :: 0 <= j < n && Sibling(controls, i, j, input) && controls[j].modifier == Some(modifier)
  }

  method AddSiblings(controls: seq<Control>, index: nat, input: Input, before: map<Input, set<Key>>)
    returns (after: map<Input, set<Key>>)
    requires index < |controls| && controls[index].Binds(input)
    ensures after.Keys <= before.Keys + {input}
    ensures forall other | other != input && other in after :: after[other] == before[other]
    ensures forall other | other != input && other in before :: other in after
    ensures forall modifier: Key :: (input in after && modifier in after[input]) <==>
              (input in before && modifier in before[input])
                  || SiblingModifier(controls, index, |controls|, input, modifier)
  {
    after := before;
    var j := 0;
    while j < |controls|
      invariant 0 <= j <= |controls|
      invariant after.Keys <= before.Keys + {input}
      invariant forall other | other != input && other in after :: after[other] == before[other]
      invariant forall other | other != input && other in before :: other in after
      invariant forall modifier: Key :: (input in after && modifier in after[input]) <==>
                  (input in before && modifier in before[input]) || SiblingModifier(controls, index, j, input, modifier)
    {
      var sibling := controls[j];
      ghost var last := after;
      if sibling.layer == controls[index].layer && sibling.modifier.Some? && sibling.Binds(input) {
        var known := if input in after then after[input] else {};
        after := after[input := known + {sibling.modifier.value}];
        assert Sibling(controls, index, j, input);
      }
      assert forall modifier: Key :: SiblingModifier(controls, index, j + 1, input, modifier) <==>
               SiblingModifier(controls, index, j, input, modifier)
               || (Sibling(controls, index, j, input) && sibling.modifier == Some(modifier));
      j := j + 1;
    }
  }

  method AddInput(controls: seq<Control>, index: nat, a: nat, before: map<Input, set<Key>>)
    returns (after: map<Input, set<Key>>)
    requires index < |controls| && a < |BoundInputs(controls[index].binding)|
    requires FilledFor(controls, index, BoundInputs(controls[index].binding)[..a], before)
    ensures FilledFor(controls, index, BoundInputs(controls[index].binding)[..a + 1], after)
    ensures |after.Keys| <= |before.Keys| + 1
  {
    var inputs := BoundInputs(controls[index].binding);
    BoundInputsBind(controls[index], a);
    after := AddSiblings(controls, index, inputs[a], before);
    CardinalityStep(after.Keys, before.Keys, inputs[a]);
    FilledStep(controls, index, inputs[..a], inputs[a], before, after);
    assert inputs[..a + 1] == inputs[..a] + [inputs[a]];
  }

  // The loop that fills the four-entry table; an entry is created once per input, so four suffice.
  method PrecomputeSuppression(controls: seq<Control>, index: nat) returns (suppressors: map<Input, set<Key>>)
    requires index < |controls|
    ensures controls[index].modifier.None? ==> SuppressesFor(controls, index, suppressors)
    ensures controls[index].modifier.Some? ==> suppressors == map[]
    ensures |suppressors| <= 4
  {
    suppressors := map[];
    if controls[index].modifier.Some? {
      return;
    }
    var inputs := BoundInputs(controls[index].binding);
    var a := 0;
    while a < |inputs|
      invariant 0 <= a <= |inputs|
      invariant |suppressors.Keys| <= a
      invariant FilledFor(controls, index, inputs[..a], suppressors)
    {
      suppressors := AddInput(controls, index, a, suppressors);
      a := a + 1;
    }
    assert inputs[..|inputs|] == inputs;
    FilledAll(controls, index, suppressors);
    assert |suppressors| == |suppressors.Keys|;
  }

  lemma BoundInputsBind(control: Control, a: nat)
    requires a < |BoundInputs(control.binding)|
    ensures control.Binds(BoundInputs(control.binding)[a])
  {
  }

  ghost predicate FilledFor(controls: seq<Control>, i: nat, inputs: seq<Input>, suppressors: map<Input, set<Key>>)
    requires i < |controls|
  {
    forall input, modifier: Key ::
      (input in suppressors && modifier in suppressors[input]) <==>
      (input in inputs && SiblingModifier(controls, i, |controls|, input, modifier))
  }

  lemma FilledStep(controls: seq<Control>, i: nat, inputs: seq<Input>, input: Input,
                   before: map<Input, set<Key>>, after: map<Input, set<Key>>)
    requires i < |controls| && FilledFor(controls, i, inputs, before)
    requires forall other | other != input && other in after :: other in before && after[other] == before[other]
    requires forall other | other != input && other in before :: other in after
    requires forall modifier: Key :: (input in after && modifier in after[input]) <==>
               (input in before && modifier in before[input])
                   || SiblingModifier(controls, i, |controls|, input, modifier)
    ensures FilledFor(controls, i, inputs + [input], after)
  {
  }

  lemma FilledAll(controls: seq<Control>, i: nat, suppressors: map<Input, set<Key>>)
    requires i < |controls| && FilledFor(controls, i, BoundInputs(controls[i].binding), suppressors)
    ensures SuppressesFor(controls, i, suppressors)
  {
  }

  lemma CardinalityStep<T>(bigger: set<T>, smaller: set<T>, extra: T)
    requires bigger <= smaller + {extra}
    ensures |bigger| <= |smaller| + 1
  {
    var all := smaller + {extra};
    assert |all| <= |smaller| + 1;
    SubsetSize(bigger, all);
  }

  lemma SubsetSize<T>(a: set<T>, b: set<T>)
    requires a <= b
    ensures |a| <= |b|
  {
    assert b == a + (b - a);
  }

  // What ProfileV2::validate guarantees: one binding per layer, modifier and input.
  ghost predicate ScopesUnique(controls: seq<Control>) {
    forall i, j, input | 0 <= i < j < |controls| && controls[i].Binds(input) && controls[j].Binds(input) ::
      !(controls[i].layer == controls[j].layer && controls[i].modifier == controls[j].modifier)
  }

  // Two different bindings answer one input only if both carry a modifier, the modifiers differ,
  // and both are held. In particular an unmodified binding never fires beside another one.
  lemma AvailableIsExclusive(controls: seq<Control>, i: nat, j: nat, input: Input, held: Held)
    requires ScopesUnique(controls) && SuppressionComputed(controls)
    requires i < |controls| && j < |controls| && i != j
    requires controls[i].Binds(input) && controls[j].Binds(input)
    requires BindingAvailable(controls, controls[i], input, held)
    requires BindingAvailable(controls, controls[j], input, held)
    ensures controls[i].modifier.Some? && controls[j].modifier.Some?
    ensures controls[i].modifier != controls[j].modifier
    ensures {controls[i].modifier.value, controls[j].modifier.value} <= held.modifiers
  {
    LayerOwnership(controls, i, input, held);
    LayerOwnership(controls, j, input, held);
    assert controls[i].modifier != controls[j].modifier;
    SuppressedBySibling(controls, i, j, input, held);
    SuppressedBySibling(controls, j, i, input, held);
  }

  lemma SuppressedBySibling(controls: seq<Control>, i: nat, j: nat, input: Input, held: Held)
    requires SuppressionComputed(controls)
    requires i < |controls| && j < |controls| && controls[i].layer == controls[j].layer
    requires controls[i].Binds(input) && controls[j].Binds(input)
    requires controls[i].modifier.None? && controls[j].modifier.Some? ==> controls[j].modifier.value in held.modifiers
    ensures controls[i].modifier.None? && controls[j].modifier.Some? ==> controls[i].IsSuppressed(input, held.modifiers)
  {
    if controls[i].modifier.None? && controls[j].modifier.Some? {
      var modifier := controls[j].modifier.value;
      assert Sibling(controls, i, j, input);
      assert SuppressesFor(controls, i, controls[i].suppressors);
      assert SiblingModifier(controls, i, |controls|, input, modifier);
      assert modifier in controls[i].suppressors[input] * held.modifiers;
    }
  }

  // ---------------------------------------------------------------------------------------
  // What the held inputs ask for: the first loop of reconcile_continuous.

  predicate KeyWanted(plan: Plan, control: Control, key: Key, held: Held)
    requires |plan.layerControls| == KEY_COUNT
  {
    !plan.Activates(key) && key in held.keys && BindingAvailable(plan.controls, control, KeyInput(key), held)
  }

  predicate HoldWanted(plan: Plan, control: Control, held: Held)
    requires |plan.layerControls| == KEY_COUNT
  {
    && control.action.Hold?
    && match control.binding
       case OnKey(key) => KeyWanted(plan, control, key, held)
       case OnButton(button) =>
         button in held.buttons && BindingAvailable(plan.controls, control, ButtonInput(button), held)
       case _ => false
  }

  function DirectionWanted(plan: Plan, control: Control, current: Direction, held: Held): Direction
    requires |plan.layerControls| == KEY_COUNT
  {
    if !control.action.Steer? || !control.binding.OnCluster? then NEUTRAL
    else
      var OnCluster(up, left, down, right) := control.binding;
      match control.action.mode
      case HoldMode =>
        Direction(KeyWanted(plan, control, up, held), KeyWanted(plan, control, left, held),
                  KeyWanted(plan, control, down, held), KeyWanted(plan, control, right, held))
      case ToggleMode =>
        current.Intersect(Direction(BindingAvailable(plan.controls, control, KeyInput(up), held),
                                    BindingAvailable(plan.controls, control, KeyInput(left), held),
                                    BindingAvailable(plan.controls, control, KeyInput(down), held),
                                    BindingAvailable(plan.controls, control, KeyInput(right), held)))
  }

  // ---------------------------------------------------------------------------------------
  // The held inputs as a fold over everything that happened.

  datatype HostInput =
    | KeyEdge(key: Key, pressed: bool)
    | ButtonEdge(button: Button, pressed: bool)
    | ButtonsDropped
    | Suspended

  // The bookkeeping half of handle_keyboard, handle_mouse, release_mouse_buttons and suspend.
  function Advance(plan: Plan, held: Held, input: HostInput): Held
    requires |plan.layerControls| == KEY_COUNT
  {
    match input
    case KeyEdge(key, pressed) =>
      Held(if pressed then held.keys + {key} else held.keys - {key},
           if key !in plan.modifierKeys then held.modifiers
           else if pressed then held.modifiers + {key} else held.modifiers - {key},
           held.buttons,
           LayersAfter(plan.layerControls[key], held.layers, pressed))
    case ButtonEdge(button, pressed) =>
      held.(buttons := if pressed then held.buttons + {button} else held.buttons - {button})
    case ButtonsDropped => held.(buttons := {})
    case Suspended => NOTHING_HELD
  }

  function LayersAfter(control: Option<LayerControl>, layers: set<nat>, pressed: bool): set<nat> {
    match control
    case None => layers
    case Some(LayerControl(bit, HoldLayer)) => if pressed then layers + {bit} else layers - {bit}
    case Some(LayerControl(bit, ToggleLayer)) =>
      if !pressed then layers else if bit in layers then layers - {bit} else layers + {bit}
  }

  function HeldAfter(plan: Plan, history: seq<HostInput>): Held
    requires |plan.layerControls| == KEY_COUNT
    decreases |history|
  {
    if history == [] then NOTHING_HELD
    else Advance(plan, HeldAfter(plan, history[..|history| - 1]), history[|history| - 1])
  }

  lemma HeldAfterOne(plan: Plan, history: seq<HostInput>, input: HostInput)
    requires |plan.layerControls| == KEY_COUNT
    ensures HeldAfter(plan, history + [input]) == Advance(plan, HeldAfter(plan, history), input)
  {
  }

  // An independent reading of the history: held means pressed, and not let go since.
  ghost predicate KeyHeld(history: seq<HostInput>, key: Key) {
    exists i :: 0 <= i < |history| && history[i] == KeyEdge(key, true)
                && forall j | i < j < |history| :: history[j] != KeyEdge(key, false) && history[j] != Suspended
  }

  ghost predicate ButtonHeld(history: seq<HostInput>, button: Button) {
    exists i :: 0 <= i < |history| && history[i] == ButtonEdge(button, true)
                && forall j | i < j < |history| ::
                     history[j] != ButtonEdge(button, false) && history[j] != ButtonsDropped && history[j] != Suspended
  }

  function PressesSinceSuspend(history: seq<HostInput>, key: Key): nat
    decreases |history|
  {
    if history == [] then 0
    else
      var last := history[|history| - 1];
      if last == Suspended then 0
      else PressesSinceSuspend(history[..|history| - 1], key) + if last == KeyEdge(key, true) then 1 else 0
  }

  ghost predicate LayerOn(plan: Plan, history: seq<HostInput>, bit: nat)
    requires |plan.layerControls| == KEY_COUNT
  {
    exists key: Key ::
      && plan.layerControls[key].Some? && plan.layerControls[key].value.bit == bit
      && match plan.layerControls[key].value.mode
         case HoldLayer => KeyHeld(history, key)
         case ToggleLayer => PressesSinceSuspend(history, key) % 2 == 1
  }

  lemma KeyHeldStep(history: seq<HostInput>, key: Key)
    requires history != []
    ensures var front, last := history[..|history| - 1], history[|history| - 1];
            KeyHeld(history, key) <==>
              last == KeyEdge(key, true) || (KeyHeld(front, key) && last != KeyEdge(key, false) && last != Suspended)
  {
  }

  lemma ButtonHeldStep(history: seq<HostInput>, button: Button)
    requires history != []
    ensures var front, last := history[..|history| - 1], history[|history| - 1];
            ButtonHeld(history, button) <==>
              || last == ButtonEdge(button, true)
              || (ButtonHeld(front, button) && last != ButtonEdge(button, false) && last != ButtonsDropped
                  && last != Suspended)
  {
  }

  lemma LayerOnStep(plan: Plan, history: seq<HostInput>, bit: nat)
    requires plan.Valid() && history != []
    ensures var front, last := history[..|history| - 1], history[|history| - 1];
            LayerOn(plan, history, bit) <==>
              && last != Suspended
              && if last.KeyEdge? && plan.Activates(last.key) && plan.layerControls[last.key].value.bit == bit
                 then bit in LayersAfter(plan.layerControls[last.key], if LayerOn(plan, front, bit) then {bit}
                                         else {}, last.pressed)
                 else LayerOn(plan, front, bit)
  {
  }

  // Whatever happened, the bookkeeping equals that reading: held_modifiers is held_keys cut to
  // the modifier keys, a hold layer is on while its key is down, a toggle layer after an odd
  // number of presses.
  lemma {:induction false} HeldCharacterized(plan: Plan, history: seq<HostInput>)
    requires plan.Valid()
    ensures var held := HeldAfter(plan, history);
            && (forall key: Key :: key in held.keys <==> KeyHeld(history, key))
            && held.modifiers == held.keys * plan.modifierKeys
            && (forall button: Button :: button in held.buttons <==> ButtonHeld(history, button))
            && (forall bit: nat :: bit in held.layers <==> LayerOn(plan, history, bit))
    decreases |history|
  {
    if history != [] {
      var front, last := history[..|history| - 1], history[|history| - 1];
      HeldCharacterized(plan, front);
      var held := HeldAfter(plan, history);
      forall key: Key ensures key in held.keys <==> KeyHeld(history, key) {
        KeyHeldStep(history, key);
      }
      forall button: Button ensures button in held.buttons <==> ButtonHeld(history, button) {
        ButtonHeldStep(history, button);
      }
      forall bit: nat ensures bit in held.layers <==> LayerOn(plan, history, bit) {
        LayerOnStep(plan, history, bit);
      }
    }
  }

  ghost predicate HoldLayersOnly(plan: Plan) {
    forall k | 0 <= k < |plan.layerControls| ::
      plan.layerControls[k].Some? ==> plan.layerControls[k].value.mode == HoldLayer
  }

  // With hold layers only, the order and timing of events leaves no trace: what matters is what is
  // held now.
  lemma HistoryIndependence(plan: Plan, one: seq<HostInput>, other: seq<HostInput>)
    requires plan.Valid() && HoldLayersOnly(plan)
    requires forall key: Key :: KeyHeld(one, key) <==> KeyHeld(other, key)
    requires forall button: Button :: ButtonHeld(one, button) <==> ButtonHeld(other, button)
    ensures HeldAfter(plan, one) == HeldAfter(plan, other)
  {
    HeldCharacterized(plan, one);
    HeldCharacterized(plan, other);
    var a, b := HeldAfter(plan, one), HeldAfter(plan, other);
    assert a.keys == b.keys && a.buttons == b.buttons && a.modifiers == b.modifiers;
    forall bit: nat ensures bit in a.layers <==> bit in b.layers {
      assert LayerOn(plan, one, bit) <==> LayerOn(plan, other, bit);
    }
    assert a.layers == b.layers;
  }

  // Nothing held, nothing wanted: whatever the layers and whatever happened before, no Hold
  // control and no Hold joystick asks for a contact.
  lemma NothingHeldNothingWanted(plan: Plan, history: seq<HostInput>, i: nat, current: Direction)
    requires plan.Valid() && i < |plan.controls|
    requires forall key: Key :: !KeyHeld(history, key)
    requires forall button: Button :: !ButtonHeld(history, button)
    ensures var held := HeldAfter(plan, history);
            && !HoldWanted(plan, plan.controls[i], held)
            && (plan.controls[i].action.Steer? && plan.controls[i].action.mode == HoldMode ==>
                  DirectionWanted(plan, plan.controls[i], current, held) == NEUTRAL)
  {
    HeldCharacterized(plan, history);
  }

  // ---------------------------------------------------------------------------------------
  // Letting go of part of a joystick

  // A stick that is up can be put down by letting go of directions exactly if some are asked for, which
  // then oppose each other.
  lemma ReleaseMayPress(joystick: Joystick, current: Direction)
    requires |joystick.targets| == 9
    ensures (joystick.Target(current).None? && exists wanted: Direction ::
             joystick.Target(current.Intersect(wanted)).Some?)
       <==> joystick.Target(current).None? && current != NEUTRAL
    ensures joystick.Target(current).None? && current != NEUTRAL ==> current.Opposed()
  {
    if joystick.Target(current).None? && current != NEUTRAL {
      var half := if current.left then current.(right := false, down := false) else current.(down := false);
      assert joystick.Target(current.Intersect(half)).Some?;
    }
  }

  // Letting go of the right key while the left one is held moves a resting stick to the left.
  lemma OpposedReleasePresses(joystick: Joystick)
    requires |joystick.targets| == 9
    ensures var both, left := NEUTRAL.(left := true, right := true), NEUTRAL.(left := true);
            && joystick.Target(both) == None
            && joystick.Target(both.Intersect(left)) == Some(joystick.targets[3])
  {
  }
}
