// Profile documents, version 2: the rules validation enforces, and the control plan built from a
// valid one (crates/wroid-core/src/profile_v2.rs, crates/wroid-runtime/src/profile_controls.rs,
// crates/wroid-inject/src/game_session.rs). Key and button names appear in canonical spelling;
// geometry appears as an outcome; trimming and the test for the reserved name are parameters.

module Profiles {
  import opened AimMotion
  import opened Wrappers
  import opened Touch
  import opened Controls
  import opened Ownership

  datatype KeyName = Known(key: Key) | UnknownKey(text: string)

  datatype ButtonName = KnownButton(button: Button) | UnknownButton(text: string)

  datatype InputV2 =
    | KeyInputV2(key: KeyName)
    | Cluster(up: KeyName, left: KeyName, down: KeyName, right: KeyName)
    | MouseButton(button: ButtonName)
    | MouseMove

  // What cannot be materialised is None; an aim region is given in the pixels it materialises to.
  datatype ActionV2 =
    | TapV2(point: Point)
    | HoldV2(point: Point)
    | JoystickV2(targets: Option<seq<Point>>, mode: JoystickMode)
    | AimV2(region: Region, sensitivity: Option<Sensitivity>, multiplier: Option<Option<Sensitivity>>,
            thresholdMilli: U16, toggleKey: Option<KeyName>, gap: bool)
    | MacroV2

  datatype BindingV2 = BindingV2(name: string, layer: Option<string>, modifier: Option<KeyName>, input: InputV2,
                                 action: ActionV2, geometryOk: bool)

  datatype LayerV2 = LayerV2(name: string, key: KeyName, mode: LayerMode)

  datatype ProfileV2 = ProfileV2(headerOk: bool, layers: seq<LayerV2>, bindings: seq<BindingV2>)

  datatype Text = Text(trim: string -> string, isBase: string -> bool) {
    // "base" is the reserved name.
    ghost predicate Sane() { trim("base") == "base" && isBase("base") }
  }

  datatype RuleError =
    | BadHeader | TooManyLayers
    | EmptyLayerName | DuplicateLayerName | ReservedLayerName
    | UnsupportedActivation | DuplicateActivation
    | ActivationInBase | ActivationInLayer
    | EmptyName | DuplicateName
    | BadInput | BadAction | Incompatible | UnknownLayer | BadModifier
    | SharedInput

  const MAX_LAYERS := 64
  const CTRL: Key := 39
  const ESC: Key := 45
  const LETTER_C: Key := 12

  // ---------------------------------------------------------------------------------------
  // Layers

  ghost predicate LayersOk(layers: seq<LayerV2>, n: nat, text: Text)
    requires n <= |layers|
  {
    && (forall i | 0 <= i < n :: text.trim(layers[i].name) != "" && !text.isBase(text.trim(layers[i].name)))
    && (forall i, j | 0 <= i < j < n :: text.trim(layers[i].name) != text.trim(layers[j].name))
  }

  ghost predicate ActivationsOk(layers: seq<LayerV2>, n: nat)
    requires n <= |layers|
  {
    && (forall i | 0 <= i < n :: layers[i].key.Known?)
    && (forall i, j | 0 <= i < j < n :: layers[i].key != layers[j].key)
  }

  // What a layer is told off for.
  ghost predicate LayerFault(layers: seq<LayerV2>, i: int, text: Text, error: RuleError)
    requires 0 <= i < |layers|
  {
    var name := text.trim(layers[i].name);
    match error
    case EmptyLayerName => name == ""
    case DuplicateLayerName => name != "" && exists j :: 0 <= j < i && text.trim(layers[j].name) == name
    case ReservedLayerName => text.isBase(name)
    case _ => false
  }

  ghost predicate ActivationFault(layers: seq<LayerV2>, i: int, error: RuleError)
    requires 0 <= i < |layers|
  {
    match error
    case UnsupportedActivation => layers[i].key.UnknownKey?
    case DuplicateActivation => exists j :: 0 <= j < i && layers[j].key == layers[i].key
    case _ => false
  }

  method ValidateLayers(layers: seq<LayerV2>, text: Text) returns (errors: seq<RuleError>)
    ensures errors == [] <==> LayersOk(layers, |layers|, text)
    ensures forall error :: error in errors <==> exists i :: 0 <= i < |layers| && LayerFault(layers, i, text, error)
  {
    errors := [];
    var names: set<string> := {};
    var i := 0;
    while i < |layers|
      invariant 0 <= i <= |layers|
      invariant forall name :: name in names <==>
                name != "" && exists j :: 0 <= j < i && text.trim(layers[j].name) == name
      invariant errors == [] <==> LayersOk(layers, i, text)
      invariant forall error :: error in errors <==> exists j :: 0 <= j < i && LayerFault(layers, j, text, error)
    {
      var name := text.trim(layers[i].name);
      ghost var before := errors;
      if name == "" {
        errors := errors + [EmptyLayerName];
      } else if name in names {
        errors := errors + [DuplicateLayerName];
      } else {
        names := names + {name};
      }
      if text.isBase(name) {
        errors := errors + [ReservedLayerName];
      }
      assert forall error :: error in errors <==> error in before || LayerFault(layers, i, text, error);
      i := i + 1;
    }
  }

  method ValidateActivations(layers: seq<LayerV2>) returns (errors: seq<RuleError>, keys: set<KeyName>)
    ensures errors == [] <==> ActivationsOk(layers, |layers|)
    ensures forall key :: key in keys <==> exists i :: 0 <= i < |layers| && layers[i].key == key
    ensures forall error :: error in errors <==> exists i :: 0 <= i < |layers| && ActivationFault(layers, i, error)
  {
    errors, keys := [], {};
    var i := 0;
    while i < |layers|
      invariant 0 <= i <= |layers|
      invariant forall key :: key in keys <==> exists j :: 0 <= j < i && layers[j].key == key
      invariant errors == [] <==> ActivationsOk(layers, i)
      invariant forall error :: error in errors <==> exists j :: 0 <= j < i && ActivationFault(layers, j, error)
    {
      var key := layers[i].key;
      ghost var before := errors;
      if !key.Known? {
        errors := errors + [UnsupportedActivation];
      }
      if key in keys {
        errors := errors + [DuplicateActivation];
      }
      keys := keys + {key};
      assert forall error :: error in errors <==> error in before || ActivationFault(layers, i, error);
      i := i + 1;
    }
  }

  // ---------------------------------------------------------------------------------------
  // One binding by itself

  function InputKeys(input: InputV2): seq<KeyName> {
    match input
    case KeyInputV2(key) => [key]
    case Cluster(up, left, down, right) => [up, left, down, right]
    case _ => []
  }

  predicate InputOk(input: InputV2) {
    match input
    case KeyInputV2(key) => key.Known?
    case Cluster(up, left, down, right) => up.Known? && left.Known? && down.Known? && right.Known?
    case MouseButton(button) => button.KnownButton?
    case MouseMove => true
  }

  predicate Compatible(input: InputV2, action: ActionV2) {
    match action
    case TapV2(_) => input.KeyInputV2? || input.MouseButton?
    case HoldV2(_) => input.KeyInputV2? || input.MouseButton?
    case JoystickV2(_, _) => input.Cluster?
    case AimV2(_, _, _, _, _, _) => input.MouseMove?
    case MacroV2 => true
  }

  predicate ModifierOk(binding: BindingV2) {
    binding.modifier.Some? ==>
      && binding.modifier.value.Known?
      && binding.modifier.value !in InputKeys(binding.input)
      && !binding.input.MouseMove?
      && (binding.modifier.value == Known(CTRL) ==>
          Known(ESC) !in InputKeys(binding.input) && Known(LETTER_C) !in InputKeys(binding.input))
  }

  predicate ActionOk(binding: BindingV2) {
    binding.geometryOk && (binding.action.AimV2? && binding.action.toggleKey.Some? ==>
                           binding.action.toggleKey.value.Known?)
  }

  predicate BindingOk(binding: BindingV2, declared: set<string>) {
    && InputOk(binding.input) && ActionOk(binding) && Compatible(binding.input, binding.action)
    && (binding.layer.Some? ==> binding.layer.value in declared)
    && ModifierOk(binding)
  }

  // The same, table by table: which names are known, ...
  ghost predicate Named(input: InputV2) {
    match input
    case KeyInputV2(Known(_)) => true
    case Cluster(Known(_), Known(_), Known(_), Known(_)) => true
    case MouseButton(KnownButton(_)) => true
    case MouseMove => true
    case _ => false
  }

  // ... which input is for which action, ...
  ghost predicate Suits(input: InputV2, action: ActionV2) {
    match (action, input)
    case (TapV2(_), KeyInputV2(_)) => true
    case (TapV2(_), MouseButton(_)) => true
    case (HoldV2(_), KeyInputV2(_)) => true
    case (HoldV2(_), MouseButton(_)) => true
    case (JoystickV2(_, _), Cluster(_, _, _, _)) => true
    case (AimV2(_, _, _, _, _, _), MouseMove) => true
    case (MacroV2, _) => true
    case _ => false
  }

  ghost predicate Uses(input: InputV2, key: KeyName) {
    match input
    case KeyInputV2(own) => key == own
    case Cluster(up, left, down, right) => key == up || key == left || key == down || key == right
    case MouseButton(_) => false
    case MouseMove => false
  }

  // ... and which modifier is for which input: none of its own keys, none for the mouse's motion, and Ctrl for
  // neither Esc nor C, which end the session.
  ghost predicate Modifies(modifier: KeyName, input: InputV2) {
    match modifier
    case UnknownKey(_) => false
    case Known(key) =>
      && !input.MouseMove? && !Uses(input, modifier)
      && (key == CTRL ==> !Uses(input, Known(ESC)) && !Uses(input, Known(LETTER_C)))
  }

  ghost predicate BindingFault(binding: BindingV2, declared: set<string>, error: RuleError) {
    match error
    case BadInput => !Named(binding.input)
    case BadAction =>
      || !binding.geometryOk
      || (binding.action.AimV2? && binding.action.toggleKey.Some? && binding.action.toggleKey.value.UnknownKey?)
    case Incompatible => !Suits(binding.input, binding.action)
    case UnknownLayer => binding.layer.Some? && binding.layer.value !in declared
    case BadModifier => binding.modifier.Some? && !Modifies(binding.modifier.value, binding.input)
    case _ => false
  }

  method ValidateBinding(binding: BindingV2, declared: set<string>) returns (errors: seq<RuleError>)
    ensures errors == [] <==> BindingOk(binding, declared)
    ensures forall error :: error in errors <==> BindingFault(binding, declared, error)
  {
    errors := [];
    if !InputOk(binding.input) {
      errors := errors + [BadInput];
    }
    if !ActionOk(binding) {
      errors := errors + [BadAction];
    }
    if !Compatible(binding.input, binding.action) {
      errors := errors + [Incompatible];
    }
    if binding.layer.Some? && binding.layer.value !in declared {
      errors := errors + [UnknownLayer];
    }
    if !ModifierOk(binding) {
      errors := errors + [BadModifier];
    }
  }

  // A base binding without a modifier must leave the activation keys alone.
  ghost predicate BaseOk(bindings: seq<BindingV2>, n: nat, activation: set<KeyName>)
    requires n <= |bindings|
  {
    forall i | 0 <= i < n && bindings[i].layer.None? && bindings[i].modifier.None? ::
      forall key | key in InputKeys(bindings[i].input) :: key !in activation
  }

  ghost predicate BaseFault(binding: BindingV2, activation: set<KeyName>) {
    binding.layer.None? && binding.modifier.None? && exists key :: key in activation && Uses(binding.input, key)
  }

  method ValidateBase(bindings: seq<BindingV2>, activation: set<KeyName>) returns (errors: seq<RuleError>)
    ensures errors == [] <==> BaseOk(bindings, |bindings|, activation)
    ensures forall error :: error in errors <==>
                              && error.ActivationInBase?
                              && exists i :: 0 <= i < |bindings| && BaseFault(bindings[i], activation)
  {
    errors := [];
    var i := 0;
    while i < |bindings|
      invariant 0 <= i <= |bindings|
      invariant errors == [] <==> BaseOk(bindings, i, activation)
      invariant forall error :: error in errors <==>
                  error.ActivationInBase? && exists j :: 0 <= j < i && BaseFault(bindings[j], activation)
    {
      if bindings[i].layer.None? && bindings[i].modifier.None? {
        var keys := InputKeys(bindings[i].input);
        ghost var before := errors;
        var k := 0;
        while k < |keys|
          invariant 0 <= k <= |keys|
          invariant before <= errors
          invariant errors == before <==> forall m | 0 <= m < k :: keys[m] !in activation
          invariant forall error ::
                      error in errors <==> error in before || (error.ActivationInBase? && errors != before)
        {
          if keys[k] in activation {
            errors := errors + [ActivationInBase];
          }
          k := k + 1;
        }
        assert forall m | 0 <= m < |keys| :: keys[m] in keys;
      }
      i := i + 1;
    }
  }

  // ---------------------------------------------------------------------------------------
  // Names and scopes

  ghost predicate NamesOk(bindings: seq<BindingV2>, n: nat, text: Text)
    requires n <= |bindings|
  {
    && (forall i | 0 <= i < n :: text.trim(bindings[i].name) != "")
    && (forall i, j | 0 <= i < j < n :: text.trim(bindings[i].name) != text.trim(bindings[j].name))
  }

  ghost predicate NameFault(bindings: seq<BindingV2>, i: int, text: Text, error: RuleError)
    requires 0 <= i < |bindings|
  {
    var name := text.trim(bindings[i].name);
    match error
    case EmptyName => name == ""
    case DuplicateName => name != "" && exists j :: 0 <= j < i && text.trim(bindings[j].name) == name
    case _ => false
  }

  method ValidateNames(bindings: seq<BindingV2>, text: Text) returns (errors: seq<RuleError>)
    ensures errors == [] <==> NamesOk(bindings, |bindings|, text)
    ensures forall error :: error in errors <==> exists i :: 0 <= i < |bindings| && NameFault(bindings, i, text, error)
  {
    errors := [];
    var names: set<string> := {};
    var i := 0;
    while i < |bindings|
      invariant 0 <= i <= |bindings|
      invariant forall name :: name in names <==>
                name != "" && exists j :: 0 <= j < i && text.trim(bindings[j].name) == name
      invariant errors == [] <==> NamesOk(bindings, i, text)
      invariant forall error :: error in errors <==> exists j :: 0 <= j < i && NameFault(bindings, j, text, error)
    {
      var name := text.trim(bindings[i].name);
      ghost var before := errors;
      if name == "" {
        errors := errors + [EmptyName];
      } else if name in names {
        errors := errors + [DuplicateName];
      } else {
        names := names + {name};
      }
      assert forall error :: error in errors <==> error in before || NameFault(bindings, i, text, error);
      i := i + 1;
    }
  }

  datatype ScopeInput = ScopeKey(key: KeyName) | ScopeButton(button: ButtonName)

  datatype Scope = Scope(layer: string, modifier: Option<KeyName>, input: ScopeInput)

  // binding_scope_input_keys
  function ScopeInputs(input: InputV2): (r: seq<ScopeInput>)
    ensures |r| <= 4
  {
    match input
    case KeyInputV2(key) => [ScopeKey(key)]
    case Cluster(up, left, down, right) => [ScopeKey(up), ScopeKey(left), ScopeKey(down), ScopeKey(right)]
    case MouseButton(button) => [ScopeButton(button)]
    case MouseMove => []
  }

  function ScopeLayer(binding: BindingV2): string {
    if binding.layer.Some? then binding.layer.value else "base"
  }

  ghost predicate Covers(binding: BindingV2, scope: Scope) {
    scope.layer == ScopeLayer(binding) && scope.modifier == binding.modifier
        && scope.input in ScopeInputs(binding.input)
  }

  ghost predicate Claimed(bindings: seq<BindingV2>, n: nat, scope: Scope)
    requires n <= |bindings|
  {
    exists i :: 0 <= i < n && Covers(bindings[i], scope)
  }

  // One input drives one binding per layer and modifier, and a layer's own activation key drives
  // nothing inside the layer.
  ghost predicate ScopesOk(bindings: seq<BindingV2>, n: nat, activation: set<(string, KeyName)>)
    requires n <= |bindings|
  {
    && (forall i, j, scope | 0 <= i < j < n && Covers(bindings[i], scope) :: !Covers(bindings[j], scope))
    && (forall i | 0 <= i < n :: LayerKeysOk(bindings[i], activation))
  }

  ghost predicate LayerKeysOk(binding: BindingV2, activation: set<(string, KeyName)>) {
    binding.layer.Some? ==>
      forall input | input in ScopeInputs(binding.input) && input.ScopeKey? ::
          (binding.layer.value, input.key) !in activation
  }

  ghost predicate ScopeFault(bindings: seq<BindingV2>, i: int, activation: set<(string, KeyName)>, error: RuleError)
    requires 0 <= i < |bindings|
  {
    match error
    case SharedInput => exists scope :: Covers(bindings[i], scope) && Claimed(bindings, i, scope)
    case ActivationInLayer => !LayerKeysOk(bindings[i], activation)
    case _ => false
  }

  // The inner loop: the binding's own repeated keys count once.
  method ClaimScopes(bindings: seq<BindingV2>, i: nat, claimed: set<Scope>, activation: set<(string, KeyName)>)
    returns (after: set<Scope>, errors: seq<RuleError>)
    requires i < |bindings|
    requires forall scope :: scope in claimed <==> Claimed(bindings, i, scope)
    ensures forall scope :: scope in after <==> Claimed(bindings, i + 1, scope)
    ensures errors == [] <==>
              && (forall scope | Covers(bindings[i], scope) :: !Claimed(bindings, i, scope))
              && LayerKeysOk(bindings[i], activation)
    ensures forall error :: error in errors <==> ScopeFault(bindings, i, activation, error)
  {
    hide Faults;
    var binding := bindings[i];
    var inputs := ScopeInputs(binding.input);
    var own: set<ScopeInput> := {};
    after, errors := claimed, [];
    NoFaultsYet(binding, claimed, activation);
    var k := 0;
    while k < |inputs|
      invariant 0 <= k <= |inputs|
      invariant forall input :: input in own <==> input in inputs[..k]
      invariant forall scope :: scope in after <==>
                  scope in claimed || (scope.layer == ScopeLayer(binding) && scope.modifier == binding.modifier
                                       && scope.input in own)
      invariant Faults(binding, own, claimed, activation, errors)
    {
      var input := inputs[k];
      assert inputs[..k + 1] == inputs[..k] + [input];
      if input !in own {
        FaultsStep(binding, own, input, claimed, activation, errors);
        own := own + {input};
        var scope := Scope(ScopeLayer(binding), binding.modifier, input);
        if scope in after {
          errors := errors + [SharedInput];
        }
        after := after + {scope};
        if input.ScopeKey? && binding.layer.Some? && (binding.layer.value, input.key) in activation {
          errors := errors + [ActivationInLayer];
        }
      }
      k := k + 1;
    }
    assert inputs[..k] == inputs;
    forall scope ensures Claimed(bindings, i + 1, scope) <==> Claimed(bindings, i, scope) || Covers(binding, scope) {
    }
    FaultsMean(bindings, i, own, claimed, activation, errors);
  }

  // The two complaints about a binding's scopes, for those of its inputs that have been looked at.
  ghost predicate Faults(binding: BindingV2, own: set<ScopeInput>, claimed: set<Scope>,
                         activation: set<(string, KeyName)>, errors: seq<RuleError>) {
    && (SharedInput in errors <==>
          exists input :: input in own && Scope(ScopeLayer(binding), binding.modifier, input) in claimed)
    && (ActivationInLayer in errors <==>
          binding.layer.Some?
          && exists input :: input in own && input.ScopeKey? && (binding.layer.value, input.key) in activation)
    && (forall error | error in errors :: error == SharedInput || error == ActivationInLayer)
  }

  lemma NoFaultsYet(binding: BindingV2, claimed: set<Scope>, activation: set<(string, KeyName)>)
    ensures Faults(binding, {}, claimed, activation, [])
  {
  }

  lemma FaultsStep(binding: BindingV2, own: set<ScopeInput>, input: ScopeInput, claimed: set<Scope>,
                   activation: set<(string, KeyName)>, errors: seq<RuleError>)
    requires Faults(binding, own, claimed, activation, errors)
    ensures var shared := Scope(ScopeLayer(binding), binding.modifier, input) in claimed;
            var inLayer := input.ScopeKey? && binding.layer.Some? && (binding.layer.value, input.key) in activation;
            var one := if shared then errors + [SharedInput] else errors;
            Faults(binding, own + {input}, claimed, activation, if inLayer then one + [ActivationInLayer] else one)
  {
  }

  lemma FaultsMean(bindings: seq<BindingV2>, i: nat, own: set<ScopeInput>, claimed: set<Scope>,
                   activation: set<(string, KeyName)>, errors: seq<RuleError>)
    requires i < |bindings| && Faults(bindings[i], own, claimed, activation, errors)
    requires forall input :: input in own <==> input in ScopeInputs(bindings[i].input)
    requires forall scope :: scope in claimed <==> Claimed(bindings, i, scope)
    ensures forall error :: error in errors <==> ScopeFault(bindings, i, activation, error)
    ensures errors == [] <==>
              && (forall scope | Covers(bindings[i], scope) :: !Claimed(bindings, i, scope))
              && LayerKeysOk(bindings[i], activation)
  {
    hide ScopeInputs, Claimed, ScopeLayer;
    var binding := bindings[i];
    forall input | input in own ensures Covers(binding, Scope(ScopeLayer(binding), binding.modifier, input)) {
    }
    if errors != [] {
      assert errors[0] in errors;
    }
  }

  method ValidateScopes(bindings: seq<BindingV2>, activation: set<(string, KeyName)>) returns (errors: seq<RuleError>)
    ensures errors == [] <==> ScopesOk(bindings, |bindings|, activation)
    ensures forall error :: error in errors <==>
                              exists i :: 0 <= i < |bindings| && ScopeFault(bindings, i, activation, error)
  {
    hide ScopeFault, Covers, LayerKeysOk;
    errors := [];
    var claimed: set<Scope> := {};
    var i := 0;
    while i < |bindings|
      invariant 0 <= i <= |bindings|
      invariant forall scope :: scope in claimed <==> Claimed(bindings, i, scope)
      invariant errors == [] <==> ScopesOk(bindings, i, activation)
      invariant forall error :: error in errors <==>
                  exists j :: 0 <= j < i && ScopeFault(bindings, j, activation, error)
    {
      var found;
      claimed, found := ClaimScopes(bindings, i, claimed, activation);
      ScopesStep(bindings, i, activation);
      ghost var before := errors;
      errors := errors + found;
      assert forall error :: error in errors <==> error in before || ScopeFault(bindings, i, activation, error);
      i := i + 1;
    }
  }

  lemma ScopesStep(bindings: seq<BindingV2>, i: nat, activation: set<(string, KeyName)>)
    requires i < |bindings|
    ensures ScopesOk(bindings, i + 1, activation) <==>
              && ScopesOk(bindings, i, activation)
              && (forall scope | Covers(bindings[i], scope) :: !Claimed(bindings, i, scope))
              && LayerKeysOk(bindings[i], activation)
  {
  }

  // ---------------------------------------------------------------------------------------
  // The whole document

  ghost predicate IsDeclared(layers: seq<LayerV2>, name: string) {
    exists i :: 0 <= i < |layers| && layers[i].name == name
  }

  ghost predicate BindingFine(layers: seq<LayerV2>, binding: BindingV2) {
    && Named(binding.input) && Suits(binding.input, binding.action) && binding.geometryOk
    && (binding.action.AimV2? && binding.action.toggleKey.Some? ==> binding.action.toggleKey.value.Known?)
    && (binding.layer.Some? ==> IsDeclared(layers, binding.layer.value))
    && (binding.modifier.Some? ==> Modifies(binding.modifier.value, binding.input))
  }

  lemma FineIffOk(layers: seq<LayerV2>, binding: BindingV2)
    ensures BindingFine(layers, binding) <==> BindingOk(binding, Declared(layers))
  {
  }

  // What a scope covers, in the keys and the buttons of the binding.
  lemma CoversMeans(binding: BindingV2, scope: Scope)
    ensures Covers(binding, scope) <==>
              && (if binding.layer.Some? then scope.layer == binding.layer.value else scope.layer == "base")
              && scope.modifier == binding.modifier
              && match scope.input
                 case ScopeKey(key) => Uses(binding.input, key)
                 case ScopeButton(button) => binding.input == MouseButton(button)
  {
  }

  ghost predicate IsValid(profile: ProfileV2, text: Text) {
    && profile.headerOk && |profile.layers| <= MAX_LAYERS
    && LayersOk(profile.layers, |profile.layers|, text)
    && ActivationsOk(profile.layers, |profile.layers|)
    && (exists keys :: IsActivationSet(profile.layers, keys) && BaseOk(profile.bindings, |profile.bindings|, keys))
    && NamesOk(profile.bindings, |profile.bindings|, text)
    && (forall i | 0 <= i < |profile.bindings| :: BindingFine(profile.layers, profile.bindings[i]))
    && ScopesOk(profile.bindings, |profile.bindings|, LayerActivations(profile.layers))
  }

  ghost predicate IsActivationSet(layers: seq<LayerV2>, keys: set<KeyName>) {
    forall key :: key in keys <==> exists i :: 0 <= i < |layers| && layers[i].key == key
  }

  function LayerActivations(layers: seq<LayerV2>): (r: set<(string, KeyName)>)
    ensures forall name, key :: (name, key) in r <==>
                                exists i :: 0 <= i < |layers| && layers[i].name == name && layers[i].key == key
  {
    set i | 0 <= i < |layers| :: (layers[i].name, layers[i].key)
  }

  function Declared(layers: seq<LayerV2>): (names: set<string>)
    ensures forall name :: name in names <==> IsDeclared(layers, name)
  {
    set i | 0 <= i < |layers| :: layers[i].name
  }

  method ValidateBindings(bindings: seq<BindingV2>, layers: seq<LayerV2>) returns (errors: seq<RuleError>)
    ensures errors == [] <==> forall i | 0 <= i < |bindings| :: BindingFine(layers, bindings[i])
    ensures forall error :: error in errors <==>
                              exists i :: 0 <= i < |bindings| && BindingFault(bindings[i], Declared(layers), error)
  {
    hide BindingFine, BindingFault, BindingOk;
    errors := [];
    var i := 0;
    while i < |bindings|
      invariant 0 <= i <= |bindings|
      invariant errors == [] <==> forall j | 0 <= j < i :: BindingFine(layers, bindings[j])
      invariant forall error :: error in errors <==>
                  exists j :: 0 <= j < i && BindingFault(bindings[j], Declared(layers), error)
    {
      FineIffOk(layers, bindings[i]);
      ghost var before := errors;
      var found := ValidateBinding(bindings[i], Declared(layers));
      errors := errors + found;
      assert forall error :: error in errors <==>
                               error in before || BindingFault(bindings[i], Declared(layers), error);
      i := i + 1;
    }
  }

  // When a document is told off for what.
  ghost predicate Deserves(profile: ProfileV2, text: Text, error: RuleError) {
    var layers, bindings := profile.layers, profile.bindings;
    || (error.BadHeader? && !profile.headerOk)
    || (error.TooManyLayers? && |layers| > 64)
    || (exists i :: 0 <= i < |layers| && LayerFault(layers, i, text, error))
    || (exists i :: 0 <= i < |layers| && ActivationFault(layers, i, error))
    || (exists i :: 0 <= i < |bindings| && NameFault(bindings, i, text, error))
    || (exists i :: 0 <= i < |bindings| && BindingFault(bindings[i], Declared(layers), error))
    || (exists i :: 0 <= i < |bindings| && ScopeFault(bindings, i, LayerActivations(layers), error))
    || (error.ActivationInBase? && exists i, keys ::
          0 <= i < |bindings| && IsActivationSet(layers, keys) && BaseFault(bindings[i], keys))
  }

  // validate: errors in groups, none exactly for a valid document.
  method Validate(profile: ProfileV2, text: Text) returns (errors: seq<RuleError>)
    ensures errors == [] <==> IsValid(profile, text)
    ensures forall error :: error in errors <==> Deserves(profile, text, error)
  {
    hide LayersOk, ActivationsOk, NamesOk, ScopesOk, BaseOk, BindingFine;
    hide LayerFault, ActivationFault, NameFault, BindingFault, ScopeFault, BaseFault, LayerActivations;
    errors := if profile.headerOk then [] else [BadHeader];
    var layers := ValidateLayers(profile.layers, text);
    errors := errors + layers;
    if |profile.layers| > MAX_LAYERS {
      errors := errors + [TooManyLayers];
    }
    var activations, keys := ValidateActivations(profile.layers);
    errors := errors + activations;
    var base := ValidateBase(profile.bindings, keys);
    errors := errors + base;
    var names := ValidateNames(profile.bindings, text);
    errors := errors + names;
    var bindings := ValidateBindings(profile.bindings, profile.layers);
    errors := errors + bindings;
    var scopes := ValidateScopes(profile.bindings, LayerActivations(profile.layers));
    errors := errors + scopes;
    forall other | IsActivationSet(profile.layers, other) ensures other == keys {
    }
    assert IsActivationSet(profile.layers, keys);
  }

  // ---------------------------------------------------------------------------------------
  // The plan

  datatype PlanError =
    | NotALayer(binding: nat)
    | NotValid(errors: seq<RuleError>)
    | NoGeometry(binding: nat)
    | Macro(binding: nat)

  // The position is truncated to 16 bits, which only more layers than validation accepts can show.
  method ResolveLayer(layers: seq<LayerV2>, name: string) returns (id: Option<LayerId>)
    ensures id.Some? ==> exists i ::
                           && 0 <= i < |layers| && layers[i].name == name && id.value == (i + 1) % U16_LIMIT
                           && forall j | 0 <= j < i :: layers[j].name != name
    ensures id.None? <==> !IsDeclared(layers, name)
  {
    var i := 0;
    while i < |layers|
      invariant 0 <= i <= |layers|
      invariant forall j | 0 <= j < i :: layers[j].name != name
    {
      if layers[i].name == name {
        return Some((i % U16_LIMIT + 1) % U16_LIMIT);
      }
      i := i + 1;
    }
    return None;
  }

  ghost predicate Resolved(layers: seq<LayerV2>, binding: BindingV2, id: LayerId) {
    match binding.layer
    case None => id == BASE
    case Some(name) => 1 <= id <= |layers| && layers[id - 1].name == name
  }

  ghost predicate HasLayer(profile: ProfileV2, i: int)
    requires 0 <= i < |profile.bindings|
  {
    profile.bindings[i].layer.Some? ==> IsDeclared(profile.layers, profile.bindings[i].layer.value)
  }

  // resolve_binding_layers
  method ResolveBindingLayers(profile: ProfileV2) returns (r: Result<seq<LayerId>, PlanError>)
    ensures r.Ok? ==> |r.value| == |profile.bindings|
    ensures r.Ok? && |profile.layers| <= MAX_LAYERS ==>
              forall i | 0 <= i < |profile.bindings| :: Resolved(profile.layers, profile.bindings[i], r.value[i])
    // The first binding whose layer is not declared is named.
    ensures r.Ok? <==> forall i | 0 <= i < |profile.bindings| :: HasLayer(profile, i)
    ensures r.Err? ==>
              && r.error.NotALayer? && r.error.binding < |profile.bindings| && !HasLayer(profile, r.error.binding)
              && forall j | 0 <= j < r.error.binding :: HasLayer(profile, j)
  {
    var ids: seq<LayerId> := [];
    var i := 0;
    while i < |profile.bindings|
      invariant 0 <= i <= |profile.bindings| == |profile.bindings|
      invariant |ids| == i
      invariant |profile.layers| <= MAX_LAYERS ==>
                  forall j | 0 <= j < i :: Resolved(profile.layers, profile.bindings[j], ids[j])
      invariant forall j | 0 <= j < i :: HasLayer(profile, j)
    {
      var layer := profile.bindings[i].layer;
      if layer.None? {
        ids := ids + [BASE];
      } else {
        var id := ResolveLayer(profile.layers, layer.value);
        if id.None? {
          assert !HasLayer(profile, i);
          return Err(NotALayer(i));
        }
        ids := ids + [id.value];
      }
      i := i + 1;
    }
    return Ok(ids);
  }

  function KeyOf(name: KeyName): Key {
    match name
    case Known(key) => key
    case UnknownKey(_) => 0
  }

  function BindingOf(input: InputV2): Binding {
    match input
    case KeyInputV2(key) => OnKey(KeyOf(key))
    case Cluster(up, left, down, right) => OnCluster(KeyOf(up), KeyOf(left), KeyOf(down), KeyOf(right))
    case MouseButton(button) => if button.KnownButton? then OnButton(button.button) else OnMotion
    case MouseMove => OnMotion
  }

  function ModifierOf(modifier: Option<KeyName>): Option<Key> {
    match modifier
    case Some(Known(key)) => Some(key)
    case _ => None
  }

  ghost predicate SaysAction(document: ActionV2, action: Action) {
    match document
    case TapV2(point) => action == Tap(point)
    case HoldV2(point) => action == Hold(point)
    case JoystickV2(targets, mode) => action.Steer? && targets == Some(action.joystick.targets) && action.mode == mode
    case AimV2(region, sensitivity, multiplier, thresholdMilli, toggleKey, gap) =>
      && action.Aim? && region.NonEmpty()
      && action.aim.region == region && action.aim.origin == region.Center()
      && Some(action.aim.sensitivity) == sensitivity
      && action.aim.multiplier == (if multiplier.Some? then multiplier.value else None)
      && (multiplier.Some? ==> multiplier.value.Some?)
      && action.aim.thresholdMilli == thresholdMilli && action.aim.gap == gap
      && action.aim.toggleKey == ModifierOf(toggleKey)
    case MacroV2 => false
  }

  // What a control takes from its binding document, suppression aside.
  ghost predicate Materialises(binding: BindingV2, id: LayerId, control: Control) {
    && control.layer == id
    && control.modifier == ModifierOf(binding.modifier)
    && control.binding == BindingOf(binding.input)
    && SaysAction(binding.action, control.action)
  }

  // How many contacts the joysticks and the aim controllers among the first n bindings take, and how
  // many the runtime adds for the rest.
  function PlannedContacts(action: ActionV2): nat {
    match action
    case JoystickV2(_, _) => 1
    case AimV2(_, _, _, _, _, _) => 2
    case _ => 0
  }

  function AddedContacts(action: ActionV2): nat {
    if action.TapV2? || action.HoldV2? then 1 else 0
  }

  function PlannedUpTo(bindings: seq<BindingV2>, n: nat): nat
    requires n <= |bindings|
  {
    if n == 0 then 0 else PlannedUpTo(bindings, n - 1) + PlannedContacts(bindings[n - 1].action)
  }

  function AddedUpTo(bindings: seq<BindingV2>, n: nat): nat
    requires n <= |bindings|
  {
    if n == 0 then 0 else AddedUpTo(bindings, n - 1) + AddedContacts(bindings[n - 1].action)
  }

  // The ids one control gets when `taken` were handed out before it.
  ghost predicate Numbered(action: Action, taken: nat) {
    match action
    case Steer(joystick, _) => joystick.contact == Saturated(taken + 1)
    case Aim(aim) => aim.contact == Saturated(taken + 1) && aim.alternate == Saturated(taken + 2)
    case _ => true
  }

  // What can be materialised: no macro, and the geometry must have come out.
  ghost predicate Materialisable(action: ActionV2, config: Config) {
    match action
    case TapV2(_) => true
    case HoldV2(_) => true
    case JoystickV2(targets, _) => targets.Some?
    case AimV2(region, sensitivity, multiplier, _, _, _) =>
      && sensitivity.Some? && multiplier != Some(None)
      && region.left <= region.right < config.width && region.top <= region.bottom < config.height
    case MacroV2 => false
  }

  // The first binding that cannot be materialised is named.
  ghost predicate Blames(bindings: seq<BindingV2>, config: Config, error: PlanError) {
    && (error.NoGeometry? || error.Macro?) && error.binding < |bindings|
    && !Materialisable(bindings[error.binding].action, config)
    && (error.Macro? <==> bindings[error.binding].action.MacroV2?)
    && forall j | 0 <= j < error.binding :: Materialisable(bindings[j].action, config)
  }

  // materialize_action, handing out contact ids from the counter.
  method MaterializeAction(binding: BindingV2, index: nat, config: Config, next: ContactId, ghost taken: nat)
    returns (r: Result<Action, PlanError>, after: ContactId)
    requires next == Saturated(taken + 1)
    ensures after == Saturated(taken + PlannedContacts(binding.action) + 1)
    ensures r.Ok? <==> Materialisable(binding.action, config)
    ensures r.Err? ==> r.error == if binding.action.MacroV2? then PlanError.Macro(index) else NoGeometry(index)
    ensures r.Ok? ==> Numbered(r.value, taken)
    ensures r.Ok? ==> SaysAction(binding.action, r.value)
    ensures r.Ok? && r.value.Aim? ==> r.value.aim.region.Within(config.width, config.height)
  {
    after := next;
    match binding.action
    case TapV2(point) => return Ok(Tap(point)), after;
    case HoldV2(point) => return Ok(Hold(point)), after;
    case JoystickV2(targets, mode) =>
      after := SaturatingNext(next);
      if targets.None? {
        return Err(NoGeometry(index)), after;
      }
      return Ok(Steer(Joystick(next, targets.value), mode)), after;
    case AimV2(region, sensitivity, multiplier, thresholdMilli, toggleKey, gap) =>
      var alternate := SaturatingNext(next);
      after := SaturatingNext(alternate);
      if sensitivity.None? || !region.Within(config.width, config.height) || multiplier == Some(None) {
        return Err(NoGeometry(index)), after;
      }
      var aim := Controls.MouseAim(next, alternate, region, region.Center(), sensitivity.value,
                                   if multiplier.Some? then multiplier.value else None, thresholdMilli,
                                   ModifierOf(toggleKey), gap);
      return Ok(Aim(aim)), after;
    case MacroV2 => return Err(PlanError.Macro(index)), after;
  }

  ghost predicate AllMaterialise(profile: ProfileV2, ids: seq<LayerId>, controls: seq<Control>) {
    && |profile.bindings| == |ids| && |controls| <= |ids|
    && forall i | 0 <= i < |controls| :: Materialises(profile.bindings[i], ids[i], controls[i])
  }

  ghost predicate AllNumbered(bindings: seq<BindingV2>, controls: seq<Control>) {
    && |controls| <= |bindings|
    && forall i | 0 <= i < |controls| :: Numbered(controls[i].action, PlannedUpTo(bindings, i))
  }

  // No two controls share a contact, and no aim controller has one contact twice.
  ghost predicate ContactsApart(controls: seq<Control>) {
    && PlannedDistinct(controls)
    && forall i | 0 <= i < |controls| && controls[i].action.Aim? ::
        controls[i].action.aim.contact != controls[i].action.aim.alternate
  }

  // No aim region leaves the surface.
  ghost predicate AimsInside(controls: seq<Control>, config: Config) {
    forall i | 0 <= i < |controls| && controls[i].action.Aim? ::
      controls[i].action.aim.region.Within(config.width, config.height)
  }

  method MaterializeControls(profile: ProfileV2, ids: seq<LayerId>, config: Config)
    returns (r: Result<seq<Control>, PlanError>)
    requires |ids| == |profile.bindings|
    ensures r.Ok? ==> |r.value| == |profile.bindings| && AllMaterialise(profile, ids, r.value)
    ensures r.Ok? ==> AllNumbered(profile.bindings, r.value) && AimsInside(r.value, config)
    // The counter saturates, and the contacts differ exactly if it does not.
    ensures r.Ok? ==> (ContactsApart(r.value) <==> PlannedUpTo(profile.bindings, |profile.bindings|) < U16_LIMIT)
    ensures r.Ok? ==> forall i | 0 <= i < |r.value| :: r.value[i].suppressors == map[]
    ensures r.Ok? <==> forall i | 0 <= i < |profile.bindings| :: Materialisable(profile.bindings[i].action, config)
    ensures r.Err? ==> Blames(profile.bindings, config, r.error)
  {
    hide Materialisable;
    hide ContactsApart, SaysAction, Numbered, AllMaterialise, AllNumbered;
    var controls: seq<Control> := [];
    NoControlsYet(profile, ids);
    var next: ContactId := 1;
    var i := 0;
    while i < |profile.bindings|
      invariant 0 <= i <= |profile.bindings| && |controls| == i
      invariant next == Saturated(PlannedUpTo(profile.bindings, i) + 1)
      invariant AllMaterialise(profile, ids, controls) && AllNumbered(profile.bindings, controls)
      invariant AimsInside(controls, config)
      invariant forall j | 0 <= j < i :: controls[j].suppressors == map[]
      invariant forall j | 0 <= j < i :: Materialisable(profile.bindings[j].action, config)
    {
      var binding := profile.bindings[i];
      var action, after := MaterializeAction(binding, i, config, next, PlannedUpTo(profile.bindings, i));
      if action.Err? {
        return Err(action.error);
      }
      var control := Control(ids[i], ModifierOf(binding.modifier), map[], BindingOf(binding.input), action.value);
      OneControlMore(profile, ids, controls, control);
      controls := controls + [control];
      next := after;
      i := i + 1;
    }
    if PlannedUpTo(profile.bindings, |profile.bindings|) < U16_LIMIT {
      NumberedApart(profile, ids, controls);
    } else {
      SaturatedTogether(profile, ids, controls);
    }
    return Ok(controls);
  }

  lemma NoControlsYet(profile: ProfileV2, ids: seq<LayerId>)
    requires |ids| == |profile.bindings|
    ensures AllMaterialise(profile, ids, []) && AllNumbered(profile.bindings, [])
  {
  }

  lemma OneControlMore(profile: ProfileV2, ids: seq<LayerId>, controls: seq<Control>, control: Control)
    requires |controls| < |ids| == |profile.bindings|
    requires AllMaterialise(profile, ids, controls) && AllNumbered(profile.bindings, controls)
    requires Materialises(profile.bindings[|controls|], ids[|controls|], control)
    requires Numbered(control.action, PlannedUpTo(profile.bindings, |controls|))
    ensures AllMaterialise(profile, ids, controls + [control]) && AllNumbered(profile.bindings, controls + [control])
  {
    hide Materialises, Numbered;
  }

  lemma {:induction false} PlannedGrows(bindings: seq<BindingV2>, i: nat, j: nat)
    requires i <= j <= |bindings|
    ensures PlannedUpTo(bindings, i)
            + (if i < j then PlannedContacts(bindings[i].action) else 0) <= PlannedUpTo(bindings, j)
    decreases j
  {
    if i < j {
      PlannedGrows(bindings, i, j - 1);
    }
  }

  // Every id handed out was handed to some binding.
  lemma {:induction false} Holder(bindings: seq<BindingV2>, n: nat, id: nat) returns (i: nat)
    requires n <= |bindings| && 0 < id <= PlannedUpTo(bindings, n)
    ensures i < n && PlannedUpTo(bindings, i) < id <= PlannedUpTo(bindings, i) + PlannedContacts(bindings[i].action)
  {
    if id <= PlannedUpTo(bindings, n - 1) {
      i := Holder(bindings, n - 1, id);
    } else {
      i := n - 1;
    }
  }

  lemma NumberedApart(profile: ProfileV2, ids: seq<LayerId>, controls: seq<Control>)
    requires |controls| == |profile.bindings| && AllMaterialise(profile, ids, controls)
    requires AllNumbered(profile.bindings, controls) && PlannedUpTo(profile.bindings, |profile.bindings|) < U16_LIMIT
    ensures ContactsApart(controls)
  {
    hide PlannedUpTo;
    var bindings := profile.bindings;
    forall i, j | 0 <= i < j < |controls|
      ensures ContactsOf(controls[i], None) !! ContactsOf(controls[j], None)
    {
      PlannedGrows(bindings, i, j);
      PlannedGrows(bindings, j, |bindings|);
      assert Materialises(bindings[i], ids[i], controls[i]) && Numbered(controls[i].action, PlannedUpTo(bindings, i));
      assert Materialises(bindings[j], ids[j], controls[j]) && Numbered(controls[j].action, PlannedUpTo(bindings, j));
    }
    forall i | 0 <= i < |controls| && controls[i].action.Aim?
      ensures controls[i].action.aim.contact != controls[i].action.aim.alternate
    {
      PlannedGrows(bindings, i, |bindings|);
      assert Materialises(bindings[i], ids[i], controls[i]);
    }
  }

  // The 65535th and the 65536th contact are the same.
  lemma SaturatedTogether(profile: ProfileV2, ids: seq<LayerId>, controls: seq<Control>)
    requires |controls| == |profile.bindings| && AllMaterialise(profile, ids, controls)
    requires AllNumbered(profile.bindings, controls) && PlannedUpTo(profile.bindings, |profile.bindings|) >= U16_LIMIT
    ensures !ContactsApart(controls)
  {
    hide PlannedUpTo;
    var bindings := profile.bindings;
    var i := Holder(bindings, |bindings|, U16_LIMIT - 1);
    var j := Holder(bindings, |bindings|, U16_LIMIT);
    assert Materialises(bindings[i], ids[i], controls[i]) && Numbered(controls[i].action, PlannedUpTo(bindings, i));
    assert Materialises(bindings[j], ids[j], controls[j]) && Numbered(controls[j].action, PlannedUpTo(bindings, j));
    assert U16_LIMIT - 1 in ContactsOf(controls[i], None) && U16_LIMIT - 1 in ContactsOf(controls[j], None);
    if j < i {
      PlannedGrows(bindings, j, i);
    }
  }

  ghost predicate SameKind(document: ActionV2, action: Action) {
    match action
    case Tap(_) => document.TapV2?
    case Hold(_) => document.HoldV2?
    case Steer(_, _) => document.JoystickV2?
    case Aim(_) => document.AimV2?
  }

  lemma PlannedOf(document: ActionV2, control: Control, taken: nat)
    requires SameKind(document, control.action) && Numbered(control.action, taken)
    ensures PlannedContact(control) == if PlannedContacts(document) == 0 then 0
            else Saturated(taken + PlannedContacts(document))
    ensures IsPoint(control) <==> AddedContacts(document) == 1
  {
  }

  ghost predicate AllSameKind(bindings: seq<BindingV2>, controls: seq<Control>) {
    |controls| <= |bindings| && forall i | 0 <= i < |controls| :: SameKind(bindings[i].action, controls[i].action)
  }

  lemma ControlAt(bindings: seq<BindingV2>, controls: seq<Control>, i: nat)
    requires i < |controls| && AllNumbered(bindings, controls) && AllSameKind(bindings, controls)
    ensures |controls| <= |bindings|
    ensures Numbered(controls[i].action, PlannedUpTo(bindings, i)) && SameKind(bindings[i].action, controls[i].action)
  {
  }

  // What the runtime's own counter starts from ...
  lemma {:induction false} HighestIs(bindings: seq<BindingV2>, controls: seq<Control>, n: nat)
    requires n <= |controls| && AllNumbered(bindings, controls) && AllSameKind(bindings, controls)
    ensures HighestPlanned(controls, n) == Saturated(PlannedUpTo(bindings, n))
    decreases n
  {
    hide AllNumbered, AllSameKind;
    if n > 0 {
      HighestIs(bindings, controls, n - 1);
      ControlAt(bindings, controls, n - 1);
      PlannedOf(bindings[n - 1].action, controls[n - 1], PlannedUpTo(bindings, n - 1));
    }
  }

  // ... and how many ids it hands out.
  lemma {:induction false} PointsAre(bindings: seq<BindingV2>, controls: seq<Control>, n: nat)
    requires n <= |controls| && AllNumbered(bindings, controls) && AllSameKind(bindings, controls)
    ensures CountPoints(controls, n) == AddedUpTo(bindings, n)
    decreases n
  {
    hide AllNumbered, AllSameKind;
    if n > 0 {
      PointsAre(bindings, controls, n - 1);
      ControlAt(bindings, controls, n - 1);
      PlannedOf(bindings[n - 1].action, controls[n - 1], PlannedUpTo(bindings, n - 1));
    }
  }

  // Scopes of the document are scopes of the plan.
  lemma ScopesCarryOver(profile: ProfileV2, text: Text, ids: seq<LayerId>, controls: seq<Control>)
    requires IsValid(profile, text) && text.Sane()
    requires |controls| == |profile.bindings| && AllMaterialise(profile, ids, controls)
    requires forall i | 0 <= i < |ids| :: Resolved(profile.layers, profile.bindings[i], ids[i])
    ensures ScopesUnique(controls)
  {
    forall i, j, input | 0 <= i < j < |controls| && controls[i].Binds(input) && controls[j].Binds(input)
      ensures !(controls[i].layer == controls[j].layer && controls[i].modifier == controls[j].modifier)
    {
      if controls[i].layer == controls[j].layer && controls[i].modifier == controls[j].modifier {
        var one, other := profile.bindings[i], profile.bindings[j];
        assert BindingFine(profile.layers, one) && BindingFine(profile.layers, other);
        SameScopeLayer(profile, text, one, other, ids[i]);
        var scope := Scope(ScopeLayer(one), one.modifier, InputScope(input));
        BoundIsScoped(one, input);
        BoundIsScoped(other, input);
        assert Covers(one, scope) && Covers(other, scope);
      }
    }
  }

  function InputScope(input: Input): ScopeInput {
    match input
    case KeyInput(key) => ScopeKey(Known(key))
    case ButtonInput(button) => ScopeButton(KnownButton(button))
  }

  lemma BoundIsScoped(binding: BindingV2, input: Input)
    requires InputOk(binding.input)
    ensures Control(BASE, None, map[], BindingOf(binding.input), Tap(Point(0, 0))).Binds(input) ==>
              InputScope(input) in ScopeInputs(binding.input)
  {
  }

  lemma SameScopeLayer(profile: ProfileV2, text: Text, one: BindingV2, other: BindingV2, id: LayerId)
    requires IsValid(profile, text) && text.Sane()
    requires Resolved(profile.layers, one, id) && Resolved(profile.layers, other, id)
    ensures ScopeLayer(one) == ScopeLayer(other)
  {
  }

  // Suppression looks at layers, modifiers and bindings only.
  lemma SuppressionIgnoresItself(controls: seq<Control>, filled: seq<Control>, i: nat,
                                 suppressors: map<Input, set<Key>>)
    requires |controls| == |filled| && i < |controls|
    requires forall j | 0 <= j < |controls| :: filled[j] == controls[j].(suppressors := filled[j].suppressors)
    requires SuppressesFor(controls, i, suppressors)
    ensures SuppressesFor(filled, i, suppressors)
  {
    hide Sibling;
    forall input, modifier: Key
      ensures SiblingModifier(controls, i, |controls|, input, modifier) <==>
              SiblingModifier(filled, i, |filled|, input, modifier)
    {
      forall j | 0 <= j < |controls|
        ensures Sibling(controls, i, j, input) == Sibling(filled, i, j, input)
                && filled[j].modifier == controls[j].modifier
      {
        SameSibling(controls, filled, i, j, input);
      }
    }
  }

  lemma SameSibling(controls: seq<Control>, filled: seq<Control>, i: nat, j: nat, input: Input)
    requires |controls| == |filled| && i < |controls| && j < |controls|
    requires filled[i] == controls[i].(suppressors := filled[i].suppressors)
    requires filled[j] == controls[j].(suppressors := filled[j].suppressors)
    ensures Sibling(controls, i, j, input) == Sibling(filled, i, j, input)
  {
  }

  method FillSuppression(controls: seq<Control>) returns (filled: seq<Control>)
    ensures |filled| == |controls| && SuppressionComputed(filled)
    ensures forall j | 0 <= j < |controls| :: filled[j] == controls[j].(suppressors := filled[j].suppressors)
  {
    filled := controls;
    var i := 0;
    while i < |controls|
      invariant 0 <= i <= |controls| == |filled|
      invariant forall j | 0 <= j < |controls| :: filled[j] == controls[j].(suppressors := filled[j].suppressors)
      invariant forall j | 0 <= j < i && controls[j].modifier.None? :: SuppressesFor(controls, j, filled[j].suppressors)
    {
      var suppressors := PrecomputeSuppression(controls, i);
      filled := filled[i := controls[i].(suppressors := suppressors)];
      i := i + 1;
    }
    forall j | 0 <= j < |filled| && filled[j].modifier.None? ensures SuppressesFor(filled, j, filled[j].suppressors) {
      SuppressionIgnoresItself(controls, filled, j, filled[j].suppressors);
    }
  }

  // Every activation key switches its own layer, and no other key switches any.
  ghost predicate LayersByKey(layers: seq<LayerV2>, table: seq<Option<LayerControl>>) {
    && |table| == KEY_COUNT
    && (forall i | 0 <= i < |layers| ::
          layers[i].key.Known? && table[layers[i].key.key] == Some(LayerControl(i, layers[i].mode)))
    && (forall k: Key | (forall i | 0 <= i < |layers| :: layers[i].key != Known(k)) :: table[k].None?)
  }

  // The layer table of UnifiedRuntime::new.
  method LayerTable(layers: seq<LayerV2>) returns (table: seq<Option<LayerControl>>)
    requires ActivationsOk(layers, |layers|)
    ensures |table| == KEY_COUNT
    ensures forall i | 0 <= i < |layers| :: table[KeyOf(layers[i].key)] == Some(LayerControl(i, layers[i].mode))
    ensures forall k | 0 <= k < KEY_COUNT && table[k].Some? ::
              table[k].value.bit < |layers| && KeyOf(layers[table[k].value.bit].key) == k
    ensures LayersByKey(layers, table)
  {
    table := seq(KEY_COUNT, k => None);
    var i := 0;
    while i < |layers|
      invariant 0 <= i <= |layers| && |table| == KEY_COUNT
      invariant forall j | 0 <= j < i :: table[KeyOf(layers[j].key)] == Some(LayerControl(j, layers[j].mode))
      invariant forall k | 0 <= k < KEY_COUNT && table[k].Some? ::
                table[k].value.bit < i && KeyOf(layers[table[k].value.bit].key) == k
    {
      forall j | 0 <= j < i ensures KeyOf(layers[j].key) != KeyOf(layers[i].key) {
        assert layers[j].key.Known? && layers[i].key.Known? && layers[j].key != layers[i].key;
      }
      table := table[KeyOf(layers[i].key) := Some(LayerControl(i, layers[i].mode))];
      i := i + 1;
    }
  }

  ghost predicate GeometryInside(profile: ProfileV2, config: Config) {
    forall i | 0 <= i < |profile.bindings| ::
      match profile.bindings[i].action
      case TapV2(point) => config.Contains(point)
      case HoldV2(point) => config.Contains(point)
      case JoystickV2(targets, _) => targets.Some? ==>
          |targets.value| == 9 && forall p | p in targets.value :: config.Contains(p)
      case _ => true
  }

  // Joysticks take one contact, aim two, every tap and hold one, and the cursor one.
  function ContactsNeeded(profile: ProfileV2): nat {
    PlannedUpTo(profile.bindings, |profile.bindings|) + AddedUpTo(profile.bindings, |profile.bindings|) + 1
  }

  // from_profile_v2: only a valid document becomes a plan, and then the plan is one the runtime can
  // be built from, in which one input never drives two bindings of a scope.
  method BuildPlan(profile: ProfileV2, config: Config, text: Text) returns (r: Result<Plan, PlanError>)
    requires text.Sane() && config.Valid() && GeometryInside(profile, config)
    ensures r.Ok? ==> IsValid(profile, text) && r.value.config == config
    ensures r.Ok? ==> ScopesUnique(r.value.controls) && r.value.Prepared()
    ensures r.Ok? ==> |r.value.controls| == |profile.bindings| && |r.value.layerControls| == KEY_COUNT
    // Contact ids have 16 bits: the plan is one the runtime can be built from, and its own ids fit as
    // well, exactly if all the contacts do.
    ensures r.Ok? ==>
              (r.value.Valid() && PlannedDistinct(r.value.controls)
               <==> PlannedUpTo(profile.bindings, |profile.bindings|) < U16_LIMIT)
    ensures r.Ok? ==> (IdsFit(r.value.controls) <==> ContactsNeeded(profile) < U16_LIMIT)
    ensures r.Ok? ==> ContactCount(r.value.controls, |r.value.controls|) + 1 == ContactsNeeded(profile)
    // The plan says what the document says.
    ensures r.Ok? ==> forall i | 0 <= i < |profile.bindings| ::
              && Resolved(profile.layers, profile.bindings[i], r.value.controls[i].layer)
              && Materialises(profile.bindings[i], r.value.controls[i].layer, r.value.controls[i])
    ensures r.Ok? ==> forall i | 0 <= i < |profile.bindings| :: Says(profile.bindings[i], r.value.controls[i])
    ensures r.Ok? ==> LayersByKey(profile.layers, r.value.layerControls)
    ensures r.Ok? ==> forall key: Key :: key in r.value.modifierKeys <==>
              exists i :: 0 <= i < |r.value.controls| && r.value.controls[i].modifier == Some(key)
    // It is refused exactly if it is not valid or cannot be materialised, and is told the first reason.
    ensures r.Ok? <==>
              && IsValid(profile, text)
              && forall i | 0 <= i < |profile.bindings| :: Materialisable(profile.bindings[i].action, config)
    ensures r.Err? ==>
              match r.error
              case NotALayer(i) =>
                i < |profile.bindings| && !HasLayer(profile, i) && forall j | 0 <= j < i :: HasLayer(profile, j)
              case NotValid(errors) =>
                && (forall i | 0 <= i < |profile.bindings| :: HasLayer(profile, i))
                && errors != [] && forall error :: error in errors <==> Deserves(profile, text, error)
              case _ => IsValid(profile, text) && Blames(profile.bindings, config, r.error)
  {
    hide Materialisable, Deserves, Says, LayersByKey, HasLayer, SaysAction;
    hide LayersOk, NamesOk, ScopesOk, BaseOk, BindingFine, ScopesUnique, SuppressionComputed, SuppressesFor;
    hide ContactsApart, IdsFit, PlannedUpTo, AddedUpTo, AllNumbered, ContactCount;
    var layers := ResolveBindingLayers(profile);
    if layers.Err? {
      UndeclaredNotValid(profile, text, layers.error.binding);
      return Err(layers.error);
    }
    var errors := Validate(profile, text);
    if errors != [] {
      return Err(NotValid(errors));
    }
    var controls := MaterializeControls(profile, layers.value, config);
    if controls.Err? {
      return Err(controls.error);
    }
    ScopesCarryOver(profile, text, layers.value, controls.value);
    var filled := FillSuppression(controls.value);
    SameScopes(controls.value, filled);
    var table := LayerTable(profile.layers);
    var modifiers := set i | 0 <= i < |filled| && filled[i].modifier.Some? :: filled[i].modifier.value;
    var plan := Plan(filled, table, modifiers, config);
    PlanIsValid(profile, layers.value, controls.value, filled, plan);
    forall i | 0 <= i < |filled| ensures Says(profile.bindings[i], filled[i]) {
      MaterialisedSays(profile.layers, profile.bindings[i], layers.value[i], filled[i]);
    }
    PlanFits(profile, layers.value, controls.value, filled);
    CountIs(profile.bindings, filled, |filled|);
    return Ok(plan);
  }

  lemma UndeclaredNotValid(profile: ProfileV2, text: Text, i: nat)
    requires i < |profile.bindings| && !HasLayer(profile, i)
    ensures !IsValid(profile, text)
  {
    assert !BindingFine(profile.layers, profile.bindings[i]);
  }

  // A valid binding and its control name the same keys and buttons, in the same places, and do the same.
  ghost predicate Says(binding: BindingV2, control: Control) {
    && (match (binding.input, control.binding)
        case (KeyInputV2(Known(key)), OnKey(other)) => key == other
        case (Cluster(Known(up), Known(left), Known(down), Known(right)), OnCluster(u, l, d, r)) =>
          up == u && left == l && down == d && right == r
        case (MouseButton(KnownButton(button)), OnButton(other)) => button == other
        case (MouseMove, OnMotion) => true
        case _ => false)
    && (match (binding.modifier, control.modifier)
        case (None, None) => true
        case (Some(Known(key)), Some(other)) => key == other
        case _ => false)
    && (match (binding.action, control.action)
        case (TapV2(point), Tap(other)) => point == other
        case (HoldV2(point), Hold(other)) => point == other
        case (JoystickV2(Some(targets), mode), Steer(joystick, other)) => targets == joystick.targets && mode == other
        case (AimV2(region, Some(sensitivity), multiplier, thresholdMilli, toggleKey, gap), Aim(aim)) =>
          && aim.region == region && aim.sensitivity == sensitivity && aim.thresholdMilli == thresholdMilli
          && aim.gap == gap && aim.multiplier == (if multiplier.Some? then multiplier.value else None)
          && 0 <= aim.origin.x - region.left - (region.right - aim.origin.x) + 1 <= 1
          && 0 <= aim.origin.y - region.top - (region.bottom - aim.origin.y) + 1 <= 1
          && (match (toggleKey, aim.toggleKey)
              case (None, None) => true
              case (Some(Known(key)), Some(other)) => key == other
              case _ => false)
        case _ => false)
    // Ctrl never modifies the keys that end the session.
    && (control.modifier == Some(39) ==> !control.Binds(KeyInput(45)) && !control.Binds(KeyInput(12)))
  }

  lemma MaterialisedSays(layers: seq<LayerV2>, binding: BindingV2, id: LayerId, control: Control)
    requires BindingFine(layers, binding) && Materialises(binding, id, control)
    ensures Says(binding, control)
  {
  }

  lemma {:induction false} CountIs(bindings: seq<BindingV2>, controls: seq<Control>, n: nat)
    requires n <= |controls| == |bindings| && forall i | 0 <= i < n :: Says(bindings[i], controls[i])
    ensures ContactCount(controls, n) == PlannedUpTo(bindings, n) + AddedUpTo(bindings, n)
  {
    if n > 0 {
      CountIs(bindings, controls, n - 1);
    }
  }

  lemma SameScopes(controls: seq<Control>, filled: seq<Control>)
    requires |controls| == |filled| && ScopesUnique(controls)
    requires forall j | 0 <= j < |controls| :: filled[j] == controls[j].(suppressors := filled[j].suppressors)
    ensures ScopesUnique(filled)
  {
    forall i, j, input | 0 <= i < j < |filled| && filled[i].Binds(input) && filled[j].Binds(input)
      ensures !(filled[i].layer == filled[j].layer && filled[i].modifier == filled[j].modifier)
    {
      assert controls[i].Binds(input) && controls[j].Binds(input);
    }
  }

  lemma PlanFits(profile: ProfileV2, ids: seq<LayerId>, controls: seq<Control>, filled: seq<Control>)
    requires |controls| == |filled| == |profile.bindings| && AllMaterialise(profile, ids, controls)
    requires AllNumbered(profile.bindings, controls)
    requires ContactsApart(controls) <==> PlannedUpTo(profile.bindings, |profile.bindings|) < U16_LIMIT
    requires forall j | 0 <= j < |controls| :: filled[j] == controls[j].(suppressors := filled[j].suppressors)
    ensures IdsFit(filled) <==> ContactsNeeded(profile) < U16_LIMIT
  {
    hide PlannedUpTo, AddedUpTo, HighestPlanned, CountPoints;
    forall i | 0 <= i < |filled| ensures SameKind(profile.bindings[i].action, filled[i].action) {
      assert Materialises(profile.bindings[i], ids[i], controls[i]);
    }
    forall i | 0 <= i < |filled| ensures ContactsOf(filled[i], None) == ContactsOf(controls[i], None) {
    }
    HighestIs(profile.bindings, filled, |filled|);
    PointsAre(profile.bindings, filled, |filled|);
  }

  lemma PlanIsValid(profile: ProfileV2, ids: seq<LayerId>, controls: seq<Control>, filled: seq<Control>, plan: Plan)
    requires |controls| == |filled| == |profile.bindings| && AllMaterialise(profile, ids, controls)
    requires forall j | 0 <= j < |controls| :: filled[j] == controls[j].(suppressors := filled[j].suppressors)
    requires plan.config.Valid() && GeometryInside(profile, plan.config) && AimsInside(controls, plan.config)
    requires plan.controls == filled && |plan.layerControls| == KEY_COUNT
    requires forall k | 0 <= k < KEY_COUNT && plan.layerControls[k].Some? ::
               plan.layerControls[k].value.bit < |profile.layers|
                   && KeyOf(profile.layers[plan.layerControls[k].value.bit].key) == k
    ensures plan.Valid() && PlannedDistinct(filled) <==> ContactsApart(controls)
  {
  }
}
