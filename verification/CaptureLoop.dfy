// run_event_loop: who owns the keyboard and the mouse, from focus events, F12 and the aim mode
// (crates/wroid-inject/src/game_session.rs). Virtual cursor positions, the overlay's drawing and
// the best-effort cursor warp stay outside: a position comes in with the event that carries it.

module CaptureLoop {
  import opened Wrappers
  import opened Touch
  import opened TypeB
  import opened Injector
  import opened Controls
  import opened AimControl
  import opened ContactDrivers
  import opened Ownership
  import opened Runtime
  import opened CaptureScript
  import opened Asked
  import Profiles

  datatype InputMode = AimMode | UiMode

  datatype Verdict = Continue | Exit(reason: LoopExit) | Failed

  function Ending(reason: Option<LoopExit>): Verdict {
    if reason.Some? then Exit(reason.value) else Continue
  }

  const LEFT: Button := 0

  // The reader threads: each request may be refused, and is carried out when it is not. Willing threads
  // refuse none.
  class InputReaders {
    const hasMouse: bool
    const willing: bool
    var keyboardCaptured: bool
    var mouseForwarded: bool
    var mouseGrabbed: bool

    constructor (hasMouse: bool, willing: bool, captured: bool, grab: bool)
      ensures this.hasMouse == hasMouse && this.willing == willing
      ensures keyboardCaptured == captured && mouseForwarded == captured && mouseGrabbed == (captured && grab)
    {
      this.hasMouse, this.willing := hasMouse, willing;
      keyboardCaptured, mouseForwarded, mouseGrabbed := captured, captured, captured && grab;
    }

    method SetKeyboardCapture(enabled: bool) returns (ok: bool)
      modifies this
      ensures keyboardCaptured == if ok then enabled else old(keyboardCaptured)
      ensures mouseForwarded == old(mouseForwarded) && mouseGrabbed == old(mouseGrabbed)
      ensures willing ==> ok
    {
      ok := *;
      ok := ok || willing;
      if ok {
        keyboardCaptured := enabled;
      }
    }

    method SetMouseMode(forward: bool, grab: bool) returns (ok: bool)
      modifies this
      ensures keyboardCaptured == old(keyboardCaptured)
      ensures if ok && hasMouse then mouseForwarded == forward && mouseGrabbed == grab
              else mouseForwarded == old(mouseForwarded) && mouseGrabbed == old(mouseGrabbed)
      ensures willing || !hasMouse ==> ok
    {
      if !hasMouse {
        return true;
      }
      ok := *;
      ok := ok || willing;
      if ok {
        mouseForwarded, mouseGrabbed := forward, grab;
      }
    }

    predicate Hold(captured: bool, grab: bool)
      reads this
    {
      keyboardCaptured == captured && (hasMouse ==> mouseForwarded == captured && mouseGrabbed == (captured && grab))
    }
  }

  // What one loop head shows.
  datatype Flags = Flags(inputActive: bool, manuallyReleased: bool, focusProtected: bool, waydroidFocused: bool,
                         touching: set<ContactId>, aiming: bool, history: seq<HostInput>) {
    // Input is captured exactly if it was not released by hand and, under protection, the window has the
    // focus; and what is not captured touches nothing.
    ghost predicate Safe() {
      && (inputActive <==> !manuallyReleased && (focusProtected ==> waydroidFocused))
      && (!inputActive ==> touching == {})
    }

    ghost predicate Shows(watch: Watch) {
      && focusProtected == watch.focusProtected && waydroidFocused == watch.waydroidFocused
      && manuallyReleased == watch.manuallyReleased
    }
  }

  // What the last change of focus said, or what held from the start; and the relay was never lost.
  ghost predicate FocusIs(start: bool, signs: seq<Sign>, focused: bool) {
    && Focus(Unavailable) !in signs
    && (forall i | 0 <= i < |signs| && LastChange(signs, i) :: signs[i] == Focus(Changed(focused)))
    && (Unchanged(signs) ==> focused == start)
  }

  // What a loop head shows after k turns: it is safe, and as the script says so far; under protection the
  // focus is what the last change said.
  ghost predicate HeadFits(head: Flags, hasRelay: bool, start: Watch, turns: seq<Turn>, k: int)
    requires 0 <= k <= |turns|
  {
    var signs := AllSigns(hasRelay, turns[..k]);
    && head.Safe() && head.Shows(AfterAll(start, signs))
    && (head.focusProtected ==> FocusIs(start.waydroidFocused, signs, head.waydroidFocused))
  }

  // What a turn adds to the history; a mode that changed to UI drops the buttons held.
  ghost predicate Remembered(hasRelay: bool, watch: Watch, past: seq<HostInput>, turn: Turn, history: seq<HostInput>,
                             aiming: bool) {
    || history == past + TurnHeard(hasRelay, watch, aiming, turn)
    || (turn.host.Keyboard? && !aiming
        && history == past + TurnHeard(hasRelay, watch, aiming, turn) + [ButtonsDropped])
  }

  // Every loop head of a run fits the script so far, protection once lost stays lost, and from head to head
  // the history of inputs grows by what the turn says.
  ghost predicate HeadsFit(heads: seq<Flags>, hasRelay: bool, start: Watch, turns: seq<Turn>) {
    && |heads| <= |turns| + 1
    && (forall k | 0 <= k < |heads| :: HeadFits(heads[k], hasRelay, start, turns, k))
    && (forall i, j | 0 <= i <= j < |heads| :: heads[j].focusProtected ==> heads[i].focusProtected)
    && (forall k | 0 <= k < |heads| - 1 ::
          Remembered(hasRelay, AfterAll(start, AllSigns(hasRelay, turns[..k])), heads[k].history, turns[k],
                     heads[k + 1].history, heads[k + 1].aiming))
  }

  lemma NoHeads(hasRelay: bool, start: Watch, turns: seq<Turn>)
    ensures HeadsFit([], hasRelay, start, turns)
  {
  }

  lemma OneHead(head: Flags, hasRelay: bool, start: Watch, turns: seq<Turn>)
    requires HeadFits(head, hasRelay, start, turns, 0)
    ensures HeadsFit([head], hasRelay, start, turns)
  {
  }

  lemma HeadsStep(heads: seq<Flags>, head: Flags, hasRelay: bool, start: Watch, turns: seq<Turn>)
    requires HeadsFit(heads, hasRelay, start, turns) && 0 < |heads| <= |turns|
    requires HeadFits(head, hasRelay, start, turns, |heads|)
    requires var k := |heads| - 1;
             && (head.focusProtected ==> heads[k].focusProtected)
             && Remembered(hasRelay, AfterAll(start, AllSigns(hasRelay, turns[..k])), heads[k].history, turns[k],
                           head.history, head.aiming)
    ensures HeadsFit(heads + [head], hasRelay, start, turns)
  {
    hide HeadFits, Remembered, AfterAll, AllSigns;
  }

  // What a mouse or a cursor event can change.
  datatype Seen = Seen(aims: seq<Option<AimController>>, contacts: Contacts, cursorPressed: bool)

  // The host did not fail, and wherever the cursor is said to be is on the surface.
  ghost predicate Sound(config: Config, host: HostEvent) {
    match host
    case Mouse(moves) => forall k | 0 <= k < |moves| :: config.Contains(moves[k].cursor)
    case CursorMotion(at) => at.Some? ==> config.Contains(at.value)
    case CursorButton(_, at) => at.Some? ==> config.Contains(at.value)
    case ReaderFailed => false
    case Disconnected => false
    case _ => true
  }

  class EventLoop {
    const runtime: UnifiedRuntime
    const readers: InputReaders
    const hasOverlay: bool
    // Whether the overlay takes every command.
    const overlayWilling: bool
    const hasRelay: bool
    const grabAllowed: bool
    var focusProtected: bool
    var waydroidFocused: bool
    var inputActive: bool
    var manuallyReleased: bool
    var sawFocusEvent: bool
    var mode: InputMode
    var toggleAimBefore: bool
    var controlPressed: bool
    var cursorPressed: bool

    // Nobody refuses anything, and there is a slot for every contact the plan reserves.
    ghost predicate Willing() {
      && readers.willing && overlayWilling && runtime.engine.injector.sink.reliable
      && |runtime.pointContacts| == |runtime.plan.controls| && runtime.Spacious()
    }

    // desired_mode
    function DesiredMode(): InputMode
      reads this, runtime
    {
      if runtime.AimActive() || !HasToggleKeyAim(runtime.plan.controls) || !hasOverlay then AimMode else UiMode
    }

    // Recapturing in the remembered mode would put the runtime in that mode.
    predicate Restorable()
      reads this
    {
      match mode
      case AimMode => HasAlwaysOnAim(runtime.plan.controls) || toggleAimBefore
          || !HasToggleKeyAim(runtime.plan.controls) || !hasOverlay
      case UiMode => HasToggleKeyAim(runtime.plan.controls) && hasOverlay
    }

    ghost predicate RuntimeReady()
      reads this, runtime, runtime.engine, runtime.engine.injector, runtime.engine.injector.sink
    {
      runtime.Valid() && runtime.Grounded() && runtime.Settled()
    }

    // Nothing held, nobody aiming, nothing on the screen.
    ghost predicate AtRest()
      reads this, runtime, runtime.engine
    {
      runtime.engine.contacts == map[] && runtime.HeldNow() == NOTHING_HELD && AllIdle(runtime.aims)
    }

    // What was seen of focus, F12 and Ctrl.
    ghost function Watching(): Watch
      reads this
    {
      Watch(focusProtected, waydroidFocused, manuallyReleased, sawFocusEvent, controlPressed)
    }

    // Input is released, and could be taken at once.
    ghost predicate Released()
      reads this, readers, runtime, runtime.engine, runtime.engine.injector, runtime.engine.injector.sink
    {
      RuntimeReady() && !inputActive && AtRest() && Restorable() && readers.Hold(false, grabAllowed)
    }

    // Capture is safe and never dead.
    ghost predicate Steady()
      reads this, readers, runtime, runtime.engine, runtime.engine.injector, runtime.engine.injector.sink
    {
      && RuntimeReady()
      && inputActive == Watching().Captured()
      && (focusProtected ==> hasRelay)
      && (!inputActive ==> AtRest() && Restorable())
      && readers.Hold(inputActive, grabAllowed)
    }

    ghost function SeenNow(): Seen
      reads this, runtime, runtime.engine
    {
      Seen(runtime.aims, runtime.engine.contacts, cursorPressed)
    }

    // In aim mode motion is the controllers' and the right button raises the sights; in UI mode the left button
    // is a touch at the cursor, which motion takes along. Nothing else does anything here.
    ghost predicate MoveDone(mode: InputMode, move: HostMouse, before: Seen, after: Seen) {
      match mode
      case AimMode =>
        && after.cursorPressed == before.cursorPressed
        && (match move.event
            case Motion(dx, dy, due) =>
              if dx == 0 == dy then after == before
              else AimsMoved(before.aims, dx, dy, due, before.contacts, after.aims, after.contacts)
            case ButtonChange(button, transition) =>
              if transition.Repeat? then after == before
              else if button == RIGHT then AdsAre(before.aims, transition.Press?, after.aims)
              else after.aims == before.aims
            case Wheel => after == before)
      case UiMode =>
        var cursor := runtime.cursorContact;
        && after.aims == before.aims
        && (match move.event
            case Motion(_, _, _) =>
              && after.cursorPressed == before.cursorPressed
              && after.contacts == (if before.cursorPressed && cursor in before.contacts
                                    then before.contacts[cursor := move.cursor] else before.contacts)
            case ButtonChange(button, transition) =>
              if button != LEFT || transition.Repeat? then after == before
              else if transition.Press? then after.cursorPressed
                  && after.contacts == before.contacts[cursor := move.cursor]
              else !after.cursorPressed && after.contacts == before.contacts - {cursor}
            case Wheel => after == before)
    }

    // The overlay's own events touch in UI mode only.
    ghost predicate CursorDone(touching: bool, host: HostEvent, before: Seen, after: Seen)
      requires host.CursorMotion? || host.CursorButton?
    {
      var cursor := runtime.cursorContact;
      && after.aims == before.aims && after.cursorPressed == before.cursorPressed
      && after.contacts ==
         if !touching || host.at.None? then before.contacts
         else if host.CursorButton? then
           if host.pressed then before.contacts[cursor := host.at.value] else before.contacts - {cursor}
         else if cursor in before.contacts then before.contacts[cursor := host.at.value]
         else before.contacts
    }

    // What a host event that is no key does, step by step.
    ghost predicate HostDone(captured: bool, mode: InputMode, host: HostEvent, trail: seq<Seen>) {
      match host
      case Keyboard(_) => |trail| == 1
      case Mouse(moves) =>
        if !captured then |trail| == 1
        else
          |trail| == |moves| + 1 && forall k | 0 <= k < |moves| :: MoveDone(mode, moves[k], trail[k], trail[k + 1])
      case CursorMotion(_) => |trail| == 2 && CursorDone(captured && mode == UiMode, host, trail[0], trail[1])
      case CursorButton(_, _) => |trail| == 2 && CursorDone(captured && mode == UiMode, host, trail[0], trail[1])
      case _ => |trail| == 1
    }

    ghost function Head(): Flags
      reads this, runtime, runtime.engine
    {
      Flags(inputActive, manuallyReleased, focusProtected, waydroidFocused, runtime.engine.contacts.Keys,
            mode == AimMode, runtime.history)
    }

    // What every loop head satisfies.
    ghost predicate AtHead()
      reads this, readers, runtime, runtime.engine, runtime.engine.injector, runtime.engine.injector.sink
    {
      Steady() && (inputActive ==> mode == DesiredMode())
    }

    constructor (runtime: UnifiedRuntime, readers: InputReaders, hasOverlay: bool, overlayWilling: bool, hasRelay: bool,
                 grabAllowed: bool, focused: bool)
      requires runtime.Valid() && runtime.Grounded() && runtime.Settled()
      requires hasRelay || focused
      requires readers.Hold(focused, grabAllowed)
      // start has run exactly when the session begins focused.
      requires focused ==> (runtime.AimActive() <==> HasAlwaysOnAim(runtime.plan.controls))
      requires !focused ==>
                runtime.engine.contacts == map[] && runtime.HeldNow() == NOTHING_HELD && AllIdle(runtime.aims)
      ensures this.runtime == runtime && this.readers == readers && this.hasRelay == hasRelay
              && this.hasOverlay == hasOverlay && this.overlayWilling == overlayWilling
      ensures !toggleAimBefore
      ensures Steady() && Restorable() && Watching() == Opening(hasRelay, focused)
      ensures inputActive && mode == AimMode ==> AtHead()
    {
      this.runtime, this.readers, this.hasOverlay, this.overlayWilling := runtime, readers, hasOverlay, overlayWilling;
      this.hasRelay, this.grabAllowed := hasRelay, grabAllowed;
      focusProtected, waydroidFocused, inputActive := hasRelay, focused, focused;
      manuallyReleased, sawFocusEvent, toggleAimBefore := false, false, false;
      controlPressed, cursorPressed := false, false;
      mode := if !HasAlwaysOnAim(runtime.plan.controls) && HasToggleKeyAim(runtime.plan.controls) && hasOverlay
          then UiMode else AimMode;
    }

    // -------------------------------------------------------------------------------------
    // apply_input_mode and release_input_to_os

    method OverlayAccepts() returns (ok: bool)
      ensures !hasOverlay || overlayWilling ==> ok
    {
      ok := *;
      ok := ok || !hasOverlay || overlayWilling;
    }

    method ApplyInputMode(next: InputMode, reactivate: bool) returns (ok: bool)
      requires RuntimeReady()
      modifies runtime, runtime.engine, runtime.engine.injector, runtime.engine.injector.sink, readers
      ensures runtime.Valid()
      ensures ok ==> RuntimeReady() && readers.keyboardCaptured == old(readers.keyboardCaptured)
      ensures ok ==>
                runtime.history == old(runtime.history)
                                   + (if next == UiMode && old(runtime.heldButtons) != {} then [ButtonsDropped] else [])
      ensures ok && readers.hasMouse ==> readers.mouseForwarded && readers.mouseGrabbed == grabAllowed
      ensures ok && next == AimMode ==>
                (runtime.AimActive() <==>
                   old(runtime.AimActive()) || HasAlwaysOnAim(runtime.plan.controls)
                   || (reactivate && HasToggleKeyAim(runtime.plan.controls)))
      ensures ok && next == AimMode ==>
                AimsRestored(runtime.plan.controls, old(runtime.aims), reactivate, old(runtime.engine.contacts),
                             runtime.aims, runtime.engine.contacts)
      // Entering aim mode, each controller aims exactly if it did, has no toggle key, or is reactivated.
      ensures ok && next == AimMode ==> Restored(runtime.plan.controls, old(runtime.aims), reactivate, runtime.aims)
      ensures ok && next == UiMode ==> !runtime.AimActive() && runtime.heldButtons == {}
      ensures Willing() ==> ok
    {
      hide TouchEngine.Valid, UnifiedRuntime.Shape, AllGrounded, AllSettled, HeldAfter, AnyActive, Restored;
      hide AimsRestored;
      hide AllFollow;
      match next
      case AimMode =>
        ok := readers.SetMouseMode(true, grabAllowed);
        if !ok {
          return;
        }
        ok := OverlayAccepts();
        if !ok {
          return;
        }
        var restored := runtime.RestoreAim(reactivate);
        ok := restored.Ok?;
      case UiMode =>
        var disabled := runtime.DisableAim();
        if disabled.Err? {
          return false;
        }
        ghost var disabledAims := runtime.aims;
        var dropped := runtime.ReleaseMouseButtons();
        if dropped.Err? {
          return false;
        }
        SameAimSameMode(disabledAims, runtime.aims);
        ok := readers.SetMouseMode(true, grabAllowed);
        if !ok {
          return;
        }
        ok := OverlayAccepts();
    }

    lemma SameAimSameMode(before: seq<Option<AimController>>, after: seq<Option<AimController>>)
      ensures SameAim(before, after) ==> AnyActive(before) == AnyActive(after)
    {
    }

    method ReleaseInputToOs() returns (ok: bool)
      requires runtime.Valid()
      modifies runtime, runtime.engine, runtime.engine.injector, runtime.engine.injector.sink, readers
      ensures runtime.Valid()
      ensures ok ==> RuntimeReady() && AtRest() && readers.Hold(false, grabAllowed)
      ensures ok ==> runtime.history == old(runtime.history) + [Suspended]
      ensures Willing() ==> ok
    {
      hide TouchEngine.Valid, UnifiedRuntime.Shape, AllGrounded, AllSettled, HeldAfter, AllIdle;
      ok := readers.SetKeyboardCapture(false);
      if !ok {
        return;
      }
      ok := readers.SetMouseMode(false, false);
      if !ok {
        return;
      }
      ok := OverlayAccepts();
      if !ok {
        return;
      }
      var suspended := runtime.Suspend();
      ok := suspended.Ok?;
    }

    // Remember the mode, then give the devices back. The flags already say so.
    method Release() returns (ok: bool)
      requires runtime.Valid() && !inputActive && !Watching().Captured() && (focusProtected ==> hasRelay)
      modifies this`mode, this`toggleAimBefore, runtime, runtime.engine, runtime.engine.injector
      modifies runtime.engine.injector.sink, readers
      ensures runtime.Valid() && (ok ==> Steady())
      ensures ok ==> runtime.history == old(runtime.history) + [Suspended]
      ensures mode == old(DesiredMode()) && toggleAimBefore == old(runtime.AimActive())
      ensures Willing() ==> ok
    {
      mode := DesiredMode();
      toggleAimBefore := runtime.AimActive();
      assert Restorable();
      ok := ReleaseInputToOs();
    }

    // Take the devices and put the runtime in the remembered mode.
    method Capture() returns (ok: bool)
      requires Released() && (focusProtected ==> waydroidFocused && hasRelay)
      modifies this`inputActive, this`manuallyReleased
      modifies runtime, runtime.engine, runtime.engine.injector, runtime.engine.injector.sink, readers
      ensures runtime.Valid() && (ok ==> AtHead() && inputActive)
      ensures !manuallyReleased || manuallyReleased == old(manuallyReleased)
      ensures ok ==> !manuallyReleased && runtime.history == old(runtime.history)
      ensures Willing() ==> ok
    {
      hide TouchEngine.Valid, UnifiedRuntime.Shape, AllGrounded, AllSettled, HeldAfter;
      assert !runtime.AimActive();
      ok := readers.SetKeyboardCapture(true);
      if !ok {
        return;
      }
      ok := ApplyInputMode(mode, toggleAimBefore);
      if !ok {
        return;
      }
      inputActive := true;
      manuallyReleased := false;
    }

    // -------------------------------------------------------------------------------------
    // Focus

    ghost predicate Untouched(sent: seq<Frame>, past: seq<HostInput>, aims: seq<Option<AimController>>)
      reads this, runtime, runtime.engine
    {
      runtime.engine.frames == sent && runtime.history == past && runtime.aims == aims
    }

    method OnFocus(event: FocusEvent) returns (ok: bool)
      requires AtHead()
      modifies this, runtime, runtime.engine, runtime.engine.injector, runtime.engine.injector.sink, readers
      ensures runtime.Valid() && (ok ==> AtHead())
      ensures ok ==> Watching() == old(Watching()).After(Focus(event))
      // Protection, once lost, is lost for good.
      ensures focusProtected == (old(focusProtected) && event.Changed?)
      ensures ok && event.Changed? ==> waydroidFocused == event.focused
      // Under protection input follows the focus, unless the user took it back.
      ensures ok && old(focusProtected) ==> (inputActive <==> event == Changed(true) && !old(manuallyReleased))
      ensures ok ==> manuallyReleased == (old(manuallyReleased) || (old(focusProtected) && event.Unavailable?))
      ensures ok ==>
                runtime.history == old(runtime.history) + (if old(inputActive) && !inputActive then [Suspended] else [])
      ensures !old(focusProtected) ==>
                ok && inputActive == old(inputActive)
                && Untouched(old(runtime.engine.frames), old(runtime.history), old(runtime.aims))
      ensures Willing() ==> ok
    {
      hide TouchEngine.Valid, UnifiedRuntime.Shape, AllGrounded, AllSettled, HeldAfter, AllIdle, AnyActive;
      hide HasAlwaysOnAim, HasToggleKeyAim;
      ok := true;
      if event.Changed? {
        sawFocusEvent := true;
        waydroidFocused := event.focused;
        if !focusProtected {
          return;
        }
        controlPressed := false;
        if event.focused && !manuallyReleased && !inputActive {
          ok := Capture();
        } else if !event.focused && inputActive {
          inputActive := false;
          ok := Release();
        }
      } else if focusProtected {
        focusProtected, waydroidFocused, manuallyReleased, controlPressed := false, false, true, false;
        if inputActive {
          inputActive := false;
          ok := Release();
        }
      }
    }

    // A relay that never spoke within the grace period: fall back to manual capture.
    method CheckSilence(graceOver: bool)
      requires AtHead()
      modifies this`focusProtected, this`manuallyReleased
      ensures AtHead() && Watching() == old(Watching()).After(Silence(graceOver))
      ensures focusProtected ==> old(focusProtected)
      ensures (old(focusProtected) && !focusProtected) ==>
                !inputActive && manuallyReleased && graceOver && !sawFocusEvent
      ensures graceOver && !sawFocusEvent && !inputActive && old(focusProtected) ==> manuallyReleased
      ensures inputActive ==> manuallyReleased == old(manuallyReleased)
    {
      hide TouchEngine.Valid, UnifiedRuntime.Shape, AllGrounded, AllSettled, HeldAfter, AllIdle, AnyActive;
      if focusProtected && !inputActive && !manuallyReleased && !sawFocusEvent && graceOver {
        focusProtected := false;
        manuallyReleased := true;
      }
    }

    // -------------------------------------------------------------------------------------
    // Keyboard

    predicate CanRecapture()
      reads this
    {
      manuallyReleased && (waydroidFocused || !focusProtected)
    }

    method OnF12() returns (ok: bool)
      requires Steady()
      modifies this, runtime, runtime.engine, runtime.engine.injector, runtime.engine.injector.sink, readers
      ensures runtime.Valid() && (ok ==> Steady())
      ensures focusProtected == old(focusProtected) && waydroidFocused == old(waydroidFocused)
      ensures ok ==>
                && Watching() == old(Watching()).After(Typed(KeyEvent(F12, None, Press)))
                && runtime.history == old(runtime.history) + (if old(inputActive) then [Suspended] else [])
      ensures !controlPressed
      // F12 releases what is captured and recaptures what may be.
      ensures ok ==> (inputActive <==> !old(inputActive) && old(CanRecapture()))
      ensures ok && inputActive ==> mode == DesiredMode()
      ensures ok && old(inputActive) ==> manuallyReleased
      ensures !old(inputActive) && !old(CanRecapture()) ==>
                ok && manuallyReleased == old(manuallyReleased)
                && Untouched(old(runtime.engine.frames), old(runtime.history), old(runtime.aims))
      ensures Willing() ==> ok
    {
      hide TouchEngine.Valid, UnifiedRuntime.Shape, AllGrounded, AllSettled, HeldAfter, AllIdle, AnyActive;
      ok := true;
      controlPressed := false;
      if inputActive {
        manuallyReleased := true;
        inputActive := false;
        ok := Release();
      } else if CanRecapture() {
        ok := Capture();
      }
    }

    method OnKey(event: KeyEvent) returns (verdict: Verdict)
      requires Steady()
      modifies this, runtime, runtime.engine, runtime.engine.injector, runtime.engine.injector.sink, readers
      ensures runtime.Valid() && (verdict.Continue? ==> Steady())
      // What was seen, and left in the history; and the session ends exactly on its hotkeys.
      ensures verdict.Continue? ==>
                && Watching() == old(Watching()).After(Typed(event))
                && runtime.history == old(runtime.history) + old(Watching()).Heard(event)
      ensures match old(Watching()).Ends(event)
              case Some(reason) => verdict == Exit(reason)
              case None => !verdict.Exit?
      ensures controlPressed == if event.name.F12? then !event.transition.Press? && old(controlPressed)
                                else if event.name.Ctrl? && old(inputActive) then !event.transition.Release?
                                else old(controlPressed)
      ensures focusProtected == old(focusProtected) && waydroidFocused == old(waydroidFocused)
      ensures event.name.F12? && event.transition.Press? && verdict.Continue? ==>
                (inputActive <==> !old(inputActive) && old(CanRecapture()))
      ensures !(event.name.F12? && event.transition.Press?) ==>
                inputActive == old(inputActive) && manuallyReleased == old(manuallyReleased)
      // While input is released only F12 gets through.
      ensures !old(inputActive) && !(event.name.F12? && event.transition.Press?) ==>
                verdict == Continue && Untouched(old(runtime.engine.frames), old(runtime.history), old(runtime.aims))
      // While it is captured every other key does.
      ensures verdict.Continue? && old(inputActive) && !event.name.F12? ==>
                runtime.history == old(runtime.history)
                                   + (if event.key.Some? && !event.transition.Repeat?
                                      then [KeyEdge(event.key.value, event.transition.Press?)] else [])
      ensures verdict.Exit? ==> old(inputActive) && old(controlPressed) && event.transition.Press?
      ensures verdict.Exit? ==> verdict.reason == if event.name.Esc? then ExitHotkey else Interrupt
      ensures (old(inputActive) && old(controlPressed) && event.transition.Press?
               && (event.name.Esc? || event.name.C?)) ==>
                verdict.Exit?
      ensures Willing() ==> !verdict.Failed?
    {
      hide TouchEngine.Valid, UnifiedRuntime.Shape, AllGrounded, AllSettled, HeldAfter, AllIdle, AnyActive;
      hide UnifiedRuntime.FollowsHistory, UnifiedRuntime.FiredAsAsked, UnifiedRuntime.KeyJams, UnifiedRuntime.Crowded;
      hide UnifiedRuntime.EasyPass, UnifiedRuntime.Spacious, SentOn, InRegions, Plan.Prepared;
      hide AllFollow, AllSteerAsAsked, AimsToggled, FiredUpTo, ToggledUpTo, PassedFrom, Fireable;
      hide UnifiedRuntime.ToggleCommands, Plan.Activates;
      if event.name.F12? {
        if event.transition.Press? {
          var ok := OnF12();
          return if ok then Continue else Failed;
        }
        return Continue;
      }
      if !inputActive {
        return Continue;
      }
      if event.name.Ctrl? {
        controlPressed := !event.transition.Release?;
      }
      if controlPressed && event.name.Esc? && event.transition.Press? {
        return Exit(ExitHotkey);
      }
      if controlPressed && event.name.C? && event.transition.Press? {
        return Exit(Interrupt);
      }
      var handled := runtime.HandleKeyboard(event.key, event.transition);
      return if handled.Ok? then Continue else Failed;
    }

    // A toggle key may have changed who is aiming: follow with the mode.
    method SyncMode() returns (ok: bool)
      requires Steady()
      modifies this`mode, runtime, runtime.engine, runtime.engine.injector, runtime.engine.injector.sink, readers
      ensures runtime.Valid() && (ok ==> AtHead())
      ensures !inputActive ==> ok && Untouched(old(runtime.engine.frames), old(runtime.history), old(runtime.aims))
      ensures ok && inputActive ==> mode == old(DesiredMode())
      ensures ok ==>
                runtime.history == old(runtime.history)
                                   + (if inputActive && mode != old(mode) && mode == UiMode
                                         && old(runtime.heldButtons) != {} then [ButtonsDropped] else [])
      ensures Willing() ==> ok
    {
      hide TouchEngine.Valid, UnifiedRuntime.Shape, AllGrounded, AllSettled, HeldAfter, AllIdle, AnyActive;
      ok := true;
      if inputActive {
        var next := DesiredMode();
        if next != mode {
          ok := ApplyInputMode(next, true);
          if ok {
            mode := next;
          }
        }
      }
    }

    lemma BatchStarts(start: Watch, keys: seq<KeyEvent>)
      ensures AfterAll(start, Keys(keys[..0])) == start && HeardAll(start, keys[..0]) == []
      ensures KeyExit(start, keys[0..]) == KeyExit(start, keys) && KeyExit(start, []) == None
    {
      assert keys[0..] == keys;
    }

    lemma BatchStep(start: Watch, watch: Watch, keys: seq<KeyEvent>, k: nat)
      requires k < |keys| && watch == AfterAll(start, Keys(keys[..k]))
      ensures AfterAll(start, Keys(keys[..k + 1])) == watch.After(Typed(keys[k]))
      ensures HeardAll(start, keys[..k + 1]) == HeardAll(start, keys[..k]) + watch.Heard(keys[k])
      ensures KeyExit(watch, keys[k..]) == if watch.Ends(keys[k]).Some? then watch.Ends(keys[k])
                                           else KeyExit(watch.After(Typed(keys[k])), keys[k + 1..])
    {
      hide Watch.After, Watch.Heard, Watch.Ends;
      assert keys[..k + 1][..k] == keys[..k] && Keys(keys[..k + 1])[..k] == Keys(keys[..k]);
      assert keys[k..][1..] == keys[k + 1..];
    }

    method OnKeyboard(keys: seq<KeyEvent>) returns (verdict: Verdict)
      requires AtHead()
      modifies this, runtime, runtime.engine, runtime.engine.injector, runtime.engine.injector.sink, readers
      ensures runtime.Valid() && (verdict.Continue? ==> AtHead())
      ensures focusProtected == old(focusProtected)
      // What was seen of the whole batch, and left in the history; then the mode may change with it.
      ensures verdict.Continue? ==>
                && Watching() == AfterAll(old(Watching()), Keys(keys))
                && (runtime.history == old(runtime.history) + HeardAll(old(Watching()), keys)
                    || (mode == UiMode && runtime.history == old(runtime.history) + HeardAll(old(Watching()), keys)
                                                             + [ButtonsDropped]))
      ensures match KeyExit(old(Watching()), keys)
              case Some(reason) => verdict == Exit(reason) || verdict == Failed
              case None => !verdict.Exit?
      ensures NoF12(keys) ==> inputActive == old(inputActive)
      ensures !old(inputActive) && NoF12(keys) ==>
                verdict == Continue && Untouched(old(runtime.engine.frames), old(runtime.history), old(runtime.aims))
      ensures Willing() ==> !verdict.Failed?
    {
      hide TouchEngine.Valid, UnifiedRuntime.Shape, AllGrounded, AllSettled, HeldAfter, AllIdle, AnyActive;
      hide Watch.After, Watch.Ends, Watch.Heard, HeardAll, KeyExit;
      BatchStarts(Watching(), keys);
      var k := 0;
      while k < |keys|
        invariant 0 <= k <= |keys| && Steady()
        invariant focusProtected == old(focusProtected)
        invariant Watching() == AfterAll(old(Watching()), Keys(keys[..k]))
        invariant runtime.history == old(runtime.history) + HeardAll(old(Watching()), keys[..k])
        invariant KeyExit(old(Watching()), keys) == KeyExit(Watching(), keys[k..])
        invariant NoF12(keys) ==> inputActive == old(inputActive)
        invariant !old(inputActive) && NoF12(keys) ==>
                    Untouched(old(runtime.engine.frames), old(runtime.history), old(runtime.aims))
      {
        BatchStep(old(Watching()), Watching(), keys, k);
        verdict := OnKey(keys[k]);
        if !verdict.Continue? {
          return;
        }
        k := k + 1;
      }
      assert keys[..k] == keys && keys[k..] == [];
      BatchStarts(Watching(), []);
      var ok := SyncMode();
      return if ok then Continue else Failed;
    }

    // -------------------------------------------------------------------------------------
    // Mouse, cursor, tick

    ghost predicate Shaped(event: MouseEvent)
      reads this
    {
      event.Motion? ==> |event.due| == |runtime.plan.controls|
    }

    // In UI mode the mouse moves the virtual cursor and its left button is a touch.
    method OnUiMouse(move: HostMouse) returns (ok: bool)
      requires AtHead() && inputActive && mode == UiMode
      modifies this`cursorPressed, runtime.engine, runtime.engine.injector, runtime.engine.injector.sink
      ensures AtHead() && runtime.history == old(runtime.history) && mode == UiMode && inputActive
      ensures ok && move.event.ButtonChange? && move.event.button == LEFT && move.event.transition.Press? ==>
                cursorPressed && runtime.engine.contacts
                    == old(runtime.engine.contacts)[runtime.cursorContact := move.cursor]
      ensures ok && move.event.ButtonChange? && move.event.button == LEFT && move.event.transition.Release? ==>
                !cursorPressed && runtime.engine.contacts == old(runtime.engine.contacts) - {runtime.cursorContact}
      ensures ok && move.event.Motion? ==>
                cursorPressed == old(cursorPressed)
                && runtime.engine.contacts == if cursorPressed && runtime.cursorContact in old(runtime.engine.contacts)
                                              then old(runtime.engine.contacts)[runtime.cursorContact := move.cursor]
                                              else old(runtime.engine.contacts)
      // No other button, and no wheel, reaches the game.
      ensures (move.event.Wheel? || (move.event.ButtonChange?
                                     && (move.event.button != LEFT || move.event.transition.Repeat?))) ==>
                ok && runtime.engine.contacts == old(runtime.engine.contacts)
      ensures Willing() && runtime.plan.config.Contains(move.cursor) ==> ok
      ensures ok ==> MoveDone(UiMode, move, old(SeenNow()), SeenNow())
    {
      hide TouchEngine.Valid, UnifiedRuntime.Shape, AllGrounded, AllSettled, HeldAfter, AllIdle, AnyActive;
      var done: Result<(), EngineError> := Ok(());
      if move.event.Motion? {
        if cursorPressed {
          done := runtime.CursorMove(move.cursor);
        }
      } else if move.event.ButtonChange? && move.event.button == LEFT {
        if move.event.transition.Press? {
          cursorPressed := true;
          done := runtime.CursorDown(move.cursor);
        } else if move.event.transition.Release? {
          cursorPressed := false;
          done := runtime.CursorUp();
        }
      }
      return done.Ok?;
    }

    method OnAimMouse(move: HostMouse) returns (ok: bool)
      requires AtHead() && inputActive && mode == AimMode && Shaped(move.event)
      modifies runtime, runtime.engine, runtime.engine.injector, runtime.engine.injector.sink
      ensures runtime.Valid() && (ok ==> AtHead())
      ensures ok ==> MoveDone(AimMode, move, old(SeenNow()), SeenNow())
      ensures runtime.history == old(runtime.history)
                                 + (if move.event.ButtonChange? && !move.event.transition.Repeat?
                                    then [ButtonEdge(move.event.button, move.event.transition.Press?)] else [])
      ensures Willing() ==> ok
    {
      hide TouchEngine.Valid, UnifiedRuntime.Shape, AllGrounded, AllSettled, HeldAfter, AllIdle, AnyActive;
      hide AimsMoved, AllFollow, AllSteerAsAsked, AdsAre, FiredUpTo, ToggledUpTo, PassedFrom, Fireable, AimContacts;
      hide SameAim;
      var handled := runtime.HandleMouse(move.event);
      SameAimSameMode(old(runtime.aims), runtime.aims);
      return handled.Ok?;
    }

    method OnMouse(moves: seq<HostMouse>) returns (ok: bool, ghost trail: seq<Seen>)
      requires AtHead() && forall k | 0 <= k < |moves| :: Shaped(moves[k].event)
      modifies this`cursorPressed, runtime, runtime.engine, runtime.engine.injector, runtime.engine.injector.sink
      ensures runtime.Valid() && (ok ==> AtHead())
      // In aim mode the game sees every press and release, in UI mode none.
      ensures ok && inputActive ==>
                runtime.history == old(runtime.history) + (if mode == AimMode then ButtonEdges(moves) else [])
      ensures !inputActive ==> ok && Untouched(old(runtime.engine.frames), old(runtime.history), old(runtime.aims))
      ensures Willing() && (forall k | 0 <= k < |moves| :: runtime.plan.config.Contains(moves[k].cursor)) ==> ok
      ensures ok ==>
                && HostDone(inputActive, mode, HostEvent.Mouse(moves), trail)
                && trail[0] == old(SeenNow()) && trail[|trail| - 1] == SeenNow()
    {
      hide TouchEngine.Valid, UnifiedRuntime.Shape, AllGrounded, AllSettled, HeldAfter, AllIdle, AnyActive;
      hide ButtonEdges, MoveDone;
      ok, trail := true, [SeenNow()];
      if !inputActive {
        return;
      }
      NoButtonEdges(moves);
      var k := 0;
      while k < |moves|
        invariant 0 <= k <= |moves| && AtHead()
        invariant runtime.history == old(runtime.history) + (if mode == AimMode then ButtonEdges(moves[..k]) else [])
        invariant |trail| == k + 1 && trail[0] == old(SeenNow()) && trail[k] == SeenNow()
        invariant forall j | 0 <= j < k :: MoveDone(mode, moves[j], trail[j], trail[j + 1])
      {
        ButtonEdgesStep(moves, k);
        if mode == AimMode {
          ok := OnAimMouse(moves[k]);
        } else {
          ok := OnUiMouse(moves[k]);
        }
        if !ok {
          return;
        }
        trail := trail + [SeenNow()];
        k := k + 1;
      }
      assert moves[..k] == moves;
      ok := true;
    }

    // Overlay events: touches in UI mode only.
    method OnCursor(event: HostEvent) returns (ok: bool)
      requires AtHead() && (event.CursorMotion? || event.CursorButton?)
      modifies runtime.engine, runtime.engine.injector, runtime.engine.injector.sink
      ensures AtHead()
      ensures !(inputActive && mode == UiMode) ==>
              ok && Untouched(old(runtime.engine.frames), old(runtime.history), old(runtime.aims))
      ensures ok && inputActive && mode == UiMode && event.at.Some? ==>
                runtime.engine.contacts ==
                  if event.CursorButton? && !event.pressed then old(runtime.engine.contacts) - {runtime.cursorContact}
                  else if event.CursorButton? || runtime.cursorContact in old(runtime.engine.contacts)
                  then old(runtime.engine.contacts)[runtime.cursorContact := event.at.value]
                  else old(runtime.engine.contacts)
      ensures Willing() && (event.at.Some? ==> runtime.plan.config.Contains(event.at.value)) ==> ok
      ensures ok ==> CursorDone(inputActive && mode == UiMode, event, old(SeenNow()), SeenNow())
    {
      hide TouchEngine.Valid, UnifiedRuntime.Shape, AllGrounded, AllSettled, HeldAfter, AllIdle, AnyActive;
      if !(inputActive && mode == UiMode) || event.at.None? {
        return true;
      }
      var done: Result<(), EngineError>;
      if event.CursorMotion? {
        done := runtime.CursorMove(event.at.value);
      } else if event.pressed {
        done := runtime.CursorDown(event.at.value);
      } else {
        done := runtime.CursorUp();
      }
      return done.Ok?;
    }

    method OnTick(due: seq<bool>) returns (ok: bool, ghost afterAim: nat)
      requires AtHead() && |due| == |runtime.plan.controls|
      modifies runtime, runtime.engine, runtime.engine.injector, runtime.engine.injector.sink
      ensures runtime.Valid() && (ok ==> AtHead())
      ensures runtime.history == old(runtime.history)
      // Captured input ticks: pauses that are over end, and sticks that are due are sent again.
      ensures ok && inputActive ==>
                && AimsTicked(old(runtime.aims), due, old(runtime.engine.contacts), runtime.aims,
                              runtime.engine.contacts)
                && afterAim <= |runtime.engine.frames|
                && Repeats(runtime.plan.controls, due, runtime.engine.contacts, runtime.engine.frames[afterAim..],
                           |runtime.plan.controls|)
      ensures !inputActive ==> ok && Untouched(old(runtime.engine.frames), old(runtime.history), old(runtime.aims))
      ensures Willing() ==> ok
    {
      hide TouchEngine.Valid, UnifiedRuntime.Shape, AllGrounded, AllSettled, HeldAfter, AllIdle, AnyActive, SameAim;
      hide AimsTicked, Repeats;
      if !inputActive {
        return true, 0;
      }
      var ticked;
      ticked, afterAim := runtime.Tick(due);
      SameAimSameMode(old(runtime.aims), runtime.aims);
      ok := ticked.Ok?;
    }

    // -------------------------------------------------------------------------------------
    // The loop

    // A session that boots captured in UI mode applies it before the first turn.
    method Begin() returns (ok: bool)
      requires Steady() && Restorable() && !toggleAimBefore
      requires inputActive && mode == AimMode ==> AtHead()
      modifies runtime, runtime.engine, runtime.engine.injector, runtime.engine.injector.sink, readers
      ensures runtime.Valid() && (ok ==> AtHead())
      ensures Willing() ==> ok
    {
      hide TouchEngine.Valid, UnifiedRuntime.Shape, AllGrounded, AllSettled, HeldAfter, AllIdle, AnyActive;
      ok := true;
      if inputActive && mode == UiMode {
        ok := ApplyInputMode(UiMode, false);
      }
    }

    ghost predicate ShapedTurn(turn: Turn)
      reads this
    {
      && |turn.due| == |runtime.plan.controls|
      && (turn.host.Mouse? ==> forall k | 0 <= k < |turn.host.moves| :: Shaped(turn.host.moves[k].event))
    }

    method DrainFocus(events: seq<FocusEvent>) returns (ok: bool)
      requires AtHead()
      modifies this, runtime, runtime.engine, runtime.engine.injector, runtime.engine.injector.sink, readers
      ensures runtime.Valid() && (ok ==> AtHead())
      ensures ok ==> Watching() == AfterAll(old(Watching()), Foci(events))
      ensures ok ==> runtime.history == old(runtime.history) + FocusHeard(old(Watching()), events)
      ensures events == [] ==> SeenNow() == old(SeenNow())
      ensures focusProtected ==> old(focusProtected)
      ensures Willing() ==> ok
    {
      hide TouchEngine.Valid, UnifiedRuntime.Shape, AllGrounded, AllSettled, HeldAfter, AllIdle, AnyActive;
      ok := true;
      var k := 0;
      while k < |events|
        invariant 0 <= k <= |events| && ok && AtHead()
        invariant Watching() == AfterAll(old(Watching()), Foci(events[..k]))
        invariant runtime.history == old(runtime.history) + FocusHeard(old(Watching()), events[..k])
        invariant events == [] ==> SeenNow() == old(SeenNow())
        invariant focusProtected ==> old(focusProtected)
      {
        FocusHeardStep(old(Watching()), events, k);
        ok := OnFocus(events[k]);
        if !ok {
          return;
        }
        k := k + 1;
      }
      assert events[..k] == events;
    }

    method OnHost(host: HostEvent) returns (verdict: Verdict, ghost trail: seq<Seen>)
      requires AtHead()
      requires host.Mouse? ==> forall k | 0 <= k < |host.moves| :: Shaped(host.moves[k].event)
      modifies this, runtime, runtime.engine, runtime.engine.injector, runtime.engine.injector.sink, readers
      ensures runtime.Valid() && (verdict.Continue? ==> AtHead())
      ensures focusProtected == old(focusProtected)
      // What was seen of keys, what was left in the history, and what else was done.
      ensures verdict.Continue? ==>
                Watching() == AfterAll(old(Watching()), if host.Keyboard? then Keys(host.keys) else [])
      ensures verdict.Continue? ==>
                || runtime.history == old(runtime.history) + HostHeard(old(Watching()), mode == AimMode, host)
                || (host.Keyboard? && mode == UiMode
                    && runtime.history == old(runtime.history) + HostHeard(old(Watching()), false, host)
                                          + [ButtonsDropped])
      ensures verdict.Continue? ==>
                && HostDone(inputActive, mode, host, trail) && trail[|trail| - 1] == SeenNow()
                && (host.Keyboard? || trail[0] == old(SeenNow()))
      // Captured keys leave exactly their presses and releases.
      ensures verdict.Continue? && old(inputActive) && host.Keyboard? && NoF12(host.keys) ==>
                || runtime.history == old(runtime.history) + Edges(host.keys)
                || (mode == UiMode && runtime.history == old(runtime.history) + Edges(host.keys) + [ButtonsDropped])
      ensures match (if host.Keyboard? then KeyExit(old(Watching()), host.keys) else None)
              case Some(reason) => verdict == Exit(reason) || verdict == Failed
              case None => !verdict.Exit?
      ensures host.ReaderFailed? || host.Disconnected? ==> verdict == Failed
      // While input is released, nothing but F12 reaches the runtime.
      ensures !old(inputActive) && (host.Keyboard? ==> NoF12(host.keys)) ==>
                !inputActive && Untouched(old(runtime.engine.frames), old(runtime.history), old(runtime.aims))
      ensures Willing() && Sound(runtime.plan.config, host) ==> !verdict.Failed?
    {
      hide TouchEngine.Valid, UnifiedRuntime.Shape, AllGrounded, AllSettled, HeldAfter, AllIdle, AnyActive;
      var ok := true;
      trail := [SeenNow()];
      match host {
        case Keyboard(keys) =>
          verdict := OnKeyboard(keys);
          trail := [SeenNow()];
          if NoF12(keys) {
            CapturedIsHeard(old(Watching()), keys);
          }
          return;
        case Mouse(moves) => ok, trail := OnMouse(moves);
        case CursorMotion(_) =>
          ok := OnCursor(host);
          trail := trail + [SeenNow()];
        case CursorButton(_, _) =>
          ok := OnCursor(host);
          trail := trail + [SeenNow()];
        case Timeout =>
        case _ => ok := false;
      }
      verdict := if ok then Continue else Failed;
    }

    ghost predicate NoneOverdue(due: seq<bool>)
      requires |due| == |runtime.plan.controls|
      reads this, runtime
    {
      |runtime.aims| == |due|
      && forall i | 0 <= i < |due| && runtime.aims[i].Some? && due[i] :: runtime.aims[i].value.pending.None?
    }

    // What a turn hears of the focus relay.
    method Relay(turn: Turn) returns (ok: bool)
      requires AtHead()
      modifies this, runtime, runtime.engine, runtime.engine.injector, runtime.engine.injector.sink, readers
      ensures runtime.Valid() && (ok ==> AtHead())
      ensures focusProtected ==> old(focusProtected)
      ensures ok ==> Watching() == AfterAll(old(Watching()), RelaySigns(hasRelay, turn))
      ensures ok ==>
                runtime.history == old(runtime.history)
                                   + (if hasRelay then FocusHeard(old(Watching()), turn.focus) else [])
      ensures !hasRelay || turn.focus == [] ==> SeenNow() == old(SeenNow())
      ensures Willing() ==> ok
    {
      hide TouchEngine.Valid, UnifiedRuntime.Shape, AllGrounded, AllSettled, HeldAfter, AllIdle, AnyActive;
      hide AfterAll, Willing, Watch.After;
      SignsSplit(hasRelay, Watching(), turn);
      ok := true;
      if hasRelay {
        ok := DrainFocus(turn.focus);
        if ok {
          CheckSilence(turn.graceOver);
        }
      }
    }

    // What a turn does for its host event, and the tick after it.
    method Act(turn: Turn) returns (verdict: Verdict, ghost afterAim: nat, ghost trail: seq<Seen>)
      requires AtHead() && ShapedTurn(turn)
      modifies this, runtime, runtime.engine, runtime.engine.injector, runtime.engine.injector.sink, readers
      ensures runtime.Valid() && (verdict.Continue? ==> AtHead())
      ensures focusProtected == old(focusProtected)
      ensures verdict.Continue? ==>
                && !turn.timeUp
                && Watching() == AfterAll(old(Watching()), if turn.host.Keyboard? then Keys(turn.host.keys) else [])
                && HostRemembered(old(Watching()), old(runtime.history), turn.host)
      ensures match (if turn.host.Keyboard? then KeyExit(old(Watching()), turn.host.keys) else None)
              case Some(reason) => verdict == Exit(reason) || verdict == Failed
              case None => verdict == (if turn.timeUp then Exit(TimeLimit) else Continue) || verdict == Failed
      ensures verdict.Continue? ==> Acted(turn, trail, afterAim)
      ensures verdict.Continue? && !turn.host.Keyboard? ==> trail[0] == old(SeenNow())
      ensures Willing() && Sound(runtime.plan.config, turn.host) ==> !verdict.Failed?
    {
      hide TouchEngine.Valid, UnifiedRuntime.Shape, AllGrounded, AllSettled, HeldAfter, AllIdle, AnyActive;
      hide Repeats, AimsTicked, KeyExit, AfterAll, Edges, HeardAll, Own, Willing, Sound, ButtonEdges, NoF12, MoveDone;
      afterAim := 0;
      verdict, trail := OnHost(turn.host);
      if !verdict.Continue? {
        return;
      }
      ghost var aims, contacts := runtime.aims, runtime.engine.contacts;
      var ticked;
      ticked, afterAim := OnTick(turn.due);
      if !ticked {
        return Failed, 0, [];
      }
      if inputActive {
        TickedNoneOverdue(aims, turn.due, contacts, runtime.aims, runtime.engine.contacts);
      }
      verdict := if turn.timeUp then Exit(TimeLimit) else Continue;
    }

    ghost predicate HostRemembered(watch: Watch, past: seq<HostInput>, host: HostEvent)
      reads this, runtime
    {
      || runtime.history == past + HostHeard(watch, mode == AimMode, host)
      || (host.Keyboard? && mode == UiMode
          && runtime.history == past + HostHeard(watch, false, host) + [ButtonsDropped])
    }

    // Every event of the host that is no key was handled in its order; and captured input ticked: no pause
    // outlasts its time, and every stick that is due was sent again.
    ghost predicate Acted(turn: Turn, trail: seq<Seen>, afterAim: nat)
      reads this, runtime, runtime.engine
    {
      && HostDone(inputActive, mode, turn.host, trail)
      && (if !inputActive then SeenNow() == trail[|trail| - 1]
          else
            && AimsTicked(trail[|trail| - 1].aims, turn.due, trail[|trail| - 1].contacts, runtime.aims,
                          runtime.engine.contacts)
            && |turn.due| == |runtime.plan.controls| && NoneOverdue(turn.due)
            && afterAim <= |runtime.engine.frames|
            && Repeats(runtime.plan.controls, turn.due, runtime.engine.contacts, runtime.engine.frames[afterAim..],
                       |runtime.plan.controls|))
    }

    method RunTurn(turn: Turn) returns (verdict: Verdict, ghost afterAim: nat, ghost trail: seq<Seen>)
      requires AtHead() && ShapedTurn(turn)
      modifies this, runtime, runtime.engine, runtime.engine.injector, runtime.engine.injector.sink, readers
      ensures runtime.Valid() && (verdict.Continue? ==> AtHead())
      ensures focusProtected ==> old(focusProtected)
      // What was seen is what the turn says, and so is whether the session ends.
      ensures verdict.Continue? ==> Watching() == AfterAll(old(Watching()), Signs(hasRelay, turn))
      ensures match TurnExit(hasRelay, old(Watching()), turn)
              case Some(reason) => verdict == Exit(reason) || verdict == Failed
              case None => !verdict.Exit?
      // So is by how much the history of inputs grew, and what was done besides.
      ensures verdict.Continue? ==>
                && Remembered(hasRelay, old(Watching()), old(runtime.history), turn, runtime.history, mode == AimMode)
                && Acted(turn, trail, afterAim)
                && ((!hasRelay || turn.focus == []) && !turn.host.Keyboard? ==> trail[0] == old(SeenNow()))
      ensures Willing() && Sound(runtime.plan.config, turn.host) ==> !verdict.Failed?
    {
      hide TouchEngine.Valid, UnifiedRuntime.Shape, AllGrounded, AllSettled, HeldAfter, AllIdle, AnyActive;
      hide KeyExit, AfterAll, Willing, Sound, Watch.After, HostHeard, FocusHeard, Acted;
      if turn.interrupted {
        return Exit(Interrupt), 0, [];
      }
      SignsSplit(hasRelay, Watching(), turn);
      var heard := Relay(turn);
      if !heard {
        return Failed, 0, [];
      }
      verdict, afterAim, trail := Act(turn);
    }

    // Every loop head of every run, however long, is safe and shows what the script says so far; and unless
    // something fails, so does the end.
    method Run(turns: seq<Turn>) returns (verdict: Verdict, ghost heads: seq<Flags>)
      requires Steady() && Restorable() && !toggleAimBefore
      requires inputActive && mode == AimMode ==> AtHead()
      requires forall k | 0 <= k < |turns| :: ShapedTurn(turns[k])
      modifies this, runtime, runtime.engine, runtime.engine.injector, runtime.engine.injector.sink, readers
      ensures runtime.Valid() && (verdict.Continue? ==> AtHead())
      ensures focusProtected ==> old(focusProtected)
      ensures HeadsFit(heads, hasRelay, old(Watching()), turns)
      ensures verdict.Continue? ==> |heads| == |turns| + 1 && heads[|turns|] == Head()
      ensures verdict.Exit? ==>
                && 0 < |heads| <= |turns|
                && ScriptExit(hasRelay, old(Watching()), turns[..|heads| - 1]).None?
                && ScriptExit(hasRelay, old(Watching()), turns[..|heads|]).Some?
      ensures match ScriptExit(hasRelay, old(Watching()), turns)
              case Some(reason) => verdict == Exit(reason) || verdict == Failed
              case None => !verdict.Exit?
      ensures Willing() && (forall k | 0 <= k < |turns| :: Sound(runtime.plan.config, turns[k].host)) ==>
                verdict == Ending(ScriptExit(hasRelay, old(Watching()), turns))
    {
      hide TouchEngine.Valid, UnifiedRuntime.Shape, AllGrounded, AllSettled, HeldAfter, AllIdle, AnyActive;
      hide AfterAll, AllSigns, TurnExit, Willing, Sound, Remembered, HeadFits, HeadsFit, EventLoop.Acted;
      heads := [];
      ghost var start := Watching();
      NoHeads(hasRelay, start, turns);
      StartsUnseen(start, turns);
      var begun := Begin();
      if !begun {
        return Failed, heads;
      }
      HeadIsFit(start, turns, 0);
      OneHead(Head(), hasRelay, start, turns);
      heads := [Head()];
      var k := 0;
      while k < |turns|
        invariant 0 <= k <= |turns| && AtHead()
        invariant focusProtected ==> old(focusProtected)
        invariant Watching() == AfterAll(start, AllSigns(hasRelay, turns[..k]))
        invariant ScriptExit(hasRelay, start, turns[..k]).None?
        invariant |heads| == k + 1 && heads[k] == Head()
        invariant HeadsFit(heads, hasRelay, start, turns)
      {
        TurnsSplit(hasRelay, start, turns, k);
        ScriptExitStep(hasRelay, start, turns, k);
        ghost var afterAim, trail;
        verdict, afterAim, trail := RunTurn(turns[k]);
        if !verdict.Continue? {
          if ScriptExit(hasRelay, start, turns[..k + 1]).Some? {
            ScriptExitStays(hasRelay, start, turns, k + 1);
          }
          return;
        }
        HeadIsFit(start, turns, k + 1);
        HeadsStep(heads, Head(), hasRelay, start, turns);
        heads := heads + [Head()];
        k := k + 1;
      }
      assert turns[..k] == turns;
      return Continue, heads;
    }

    lemma StartsUnseen(start: Watch, turns: seq<Turn>)
      ensures AfterAll(start, AllSigns(hasRelay, turns[..0])) == start
      ensures ScriptExit(hasRelay, start, turns[..0]).None?
    {
    }

    lemma HeadIsFit(start: Watch, turns: seq<Turn>, k: nat)
      requires k <= |turns| && AtHead() && Watching() == AfterAll(start, AllSigns(hasRelay, turns[..k]))
      ensures HeadFits(Head(), hasRelay, start, turns, k)
    {
      hide TouchEngine.Valid, UnifiedRuntime.Shape, AllGrounded, AllSettled, HeldAfter, AllIdle, AnyActive, AllSigns;
      if focusProtected {
        ProtectedFocus(start, AllSigns(hasRelay, turns[..k]));
      }
    }
  }

  // ---------------------------------------------------------------------------------------
  // What every head of the loop means.

  // Captured input is for the UI exactly if there is one, some aim waits for its key, and nobody aims.
  lemma HeadMode(session: EventLoop)
    requires session.AtHead() && session.inputActive
    ensures session.mode == UiMode <==>
              && session.hasOverlay
              && (exists i :: 0 <= i < |session.runtime.plan.controls|
                              && session.runtime.plan.controls[i].action.Aim?
                              && session.runtime.plan.controls[i].action.aim.toggleKey.Some?)
              && forall i | 0 <= i < |session.runtime.aims| && session.runtime.aims[i].Some? ::
                   session.runtime.aims[i].value.active.None? && session.runtime.aims[i].value.pending.None?
  {
  }

  // Whatever happened before it, a head shows what the history of the inputs asks for.
  lemma HeadFollows(session: EventLoop)
    requires session.AtHead() && session.runtime.plan.Prepared()
    ensures session.runtime.FollowsHistory()
  {
    hide TouchEngine.Valid, AllFollow;
    session.runtime.ShowsHistory();
  }

  // ---------------------------------------------------------------------------------------
  // Down to the device: while input is released, whoever reads the device node sees no touch.

  ghost predicate ShowsNothing(receiver: Receiver) {
    receiver.touch == 0 && forall k | 0 <= k < |receiver.slots| :: receiver.slots[k].id == -1
  }

  lemma EmptyShowsNothing(engine: TouchEngine)
    requires engine.Valid() && engine.contacts == map[]
    ensures ShowsNothing(Replay(engine.injector.config, engine.injector.sink.batches))
  {
    var injector := engine.injector;
    CountersAgree(injector.config, injector.state);
    CountZero(injector.state.slots, injector.state.slotCount);
  }

  lemma ReleasedShowsNothing(session: EventLoop)
    requires session.AtHead() && !session.inputActive
    ensures ShowsNothing(Replay(session.runtime.plan.config, session.runtime.engine.injector.sink.batches))
  {
    hide TouchEngine.Valid, UnifiedRuntime.Shape, AllGrounded, AllSettled, HeldAfter, AllIdle, AnyActive, ShowsNothing;
    EmptyShowsNothing(session.runtime.engine);
  }

  // ---------------------------------------------------------------------------------------
  // A whole session, from a fresh device to the final stop.

  datatype Setup = Setup(hasRelay: bool, focused: bool, hasOverlay: bool, hasMouse: bool, grab: bool, willing: bool)

  // start, when the session begins focused.
  method StartRuntime(runtime: UnifiedRuntime, focused: bool) returns (ok: bool)
    requires runtime.Valid() && runtime.Grounded() && runtime.Settled()
    requires runtime.engine.contacts == map[] && runtime.HeldNow() == NOTHING_HELD && AllIdle(runtime.aims)
    modifies runtime, runtime.engine, runtime.engine.injector, runtime.engine.injector.sink
    ensures runtime.Valid()
    ensures ok ==> runtime.Grounded() && runtime.Settled()
    ensures ok && focused ==> (runtime.AimActive() <==> HasAlwaysOnAim(runtime.plan.controls))
    ensures !focused ==> ok
    ensures runtime.engine.injector.sink.reliable && runtime.Spacious() ==> ok
    ensures ok && !focused ==>
              runtime.engine.contacts == map[] && runtime.HeldNow() == NOTHING_HELD && AllIdle(runtime.aims)
  {
    hide TouchEngine.Valid, UnifiedRuntime.Shape, AllGrounded, AllSettled, HeldAfter;
    ok := true;
    if focused {
      assert !runtime.AimActive();
      var started := runtime.RestoreAim(false);
      ok := started.Ok?;
    }
  }

  lemma SpaciousPlan(runtime: UnifiedRuntime)
    requires runtime.Valid()
    requires ContactCount(runtime.plan.controls, |runtime.plan.controls|) < runtime.plan.config.slotCount
    ensures |runtime.pointContacts| == |runtime.plan.controls| && runtime.Spacious()
  {
    ReservedIsSmall(runtime.plan.controls, runtime.pointContacts, |runtime.plan.controls|);
  }

  // run_game_session, as far as input goes. However it ends, the session is stopped unless it did not even
  // start; and the stop leaves the device with no touch, or fails because the device refused a write.
  method PlaySession(plan: Plan, engine: TouchEngine, setup: Setup, turns: seq<Turn>)
    returns (verdict: Verdict, stop: Option<Result<(), EngineError>>)
    requires plan.Valid() && engine.Valid() && engine.contacts == map[] && engine.injector.config == plan.config
    requires IdsFit(plan.controls)
    // Without a relay the session counts as focused.
    requires setup.hasRelay || setup.focused
    requires forall k | 0 <= k < |turns| ::
               && |turns[k].due| == |plan.controls|
               && (turns[k].host.Mouse? ==> forall m | 0 <= m < |turns[k].host.moves| ::
                     turns[k].host.moves[m].event.Motion? ==> |turns[k].host.moves[m].event.due| == |plan.controls|)
    modifies engine, engine.injector, engine.injector.sink
    ensures engine.Valid()
    ensures stop.Some? && stop.value.Ok? ==>
              engine.contacts == map[] && ShowsNothing(Replay(engine.injector.config, engine.injector.sink.batches))
    ensures stop.Some? && stop.value.Err? ==> DeviceRefused(stop.value)
    ensures stop.None? ==> verdict == Failed && setup.focused
    // The script alone says which hotkey, limit or interrupt ends the session, if nothing fails before it.
    ensures match ScriptExit(setup.hasRelay, Opening(setup.hasRelay, setup.focused), turns)
            case Some(reason) => verdict == Exit(reason) || verdict == Failed
            case None => !verdict.Exit?
    // Where nobody refuses anything, the host does not fail and there are slots enough, nothing fails at all.
    ensures (setup.willing && engine.injector.sink.reliable
             && ContactCount(plan.controls, |plan.controls|) < plan.config.slotCount
             && forall k | 0 <= k < |turns| :: Sound(plan.config, turns[k].host)) ==>
              && stop.Some? && stop.value.Ok?
              && verdict == Ending(ScriptExit(setup.hasRelay, Opening(setup.hasRelay, setup.focused), turns))
  {
    hide TouchEngine.Valid, UnifiedRuntime.Shape, AllGrounded, AllSettled, HeldAfter, ShowsNothing, Plan.Valid, IdsFit;
    hide ScriptExit;
    var runtime := new UnifiedRuntime(plan, engine);
    if ContactCount(plan.controls, |plan.controls|) < plan.config.slotCount {
      SpaciousPlan(runtime);
    }
    var started := StartRuntime(runtime, setup.focused);
    if !started {
      // The error leaves run_game_session before there is a loop to stop.
      return Failed, None;
    }
    var readers := new InputReaders(setup.hasMouse, setup.willing, setup.focused, setup.grab);
    var session := new EventLoop(runtime, readers, setup.hasOverlay, setup.willing, setup.hasRelay, setup.grab,
                                 setup.focused);
    ghost var heads;
    verdict, heads := session.Run(turns);
    var stopped := runtime.Suspend();
    if stopped.Ok? {
      EmptyShowsNothing(engine);
    }
    return verdict, Some(stopped);
  }

  // From the profile document on: whatever a valid document says, the session it makes can be
  // played and leaves the device clean.
  method PlayProfile(profile: Profiles.ProfileV2, config: Config, text: Profiles.Text, engine: TouchEngine,
                     setup: Setup, turns: seq<Turn>)
    returns (played: bool, verdict: Verdict, stop: Option<Result<(), EngineError>>)
    requires text.Sane() && config.Valid() && Profiles.GeometryInside(profile, config)
    // All the contacts it needs have ids of 16 bits.
    requires Profiles.ContactsNeeded(profile) < U16_LIMIT
    requires engine.Valid() && engine.contacts == map[] && engine.injector.config == config
    requires setup.hasRelay || setup.focused
    requires forall k | 0 <= k < |turns| ::
               && |turns[k].due| == |profile.bindings|
               && (turns[k].host.Mouse? ==> forall m | 0 <= m < |turns[k].host.moves| ::
                     turns[k].host.moves[m].event.Motion? ==> |turns[k].host.moves[m].event.due| == |profile.bindings|)
    modifies engine, engine.injector, engine.injector.sink
    ensures played <==>
              && Profiles.IsValid(profile, text)
              && forall i | 0 <= i < |profile.bindings| :: Profiles.Materialisable(profile.bindings[i].action, config)
    ensures !played || (stop.Some? && stop.value.Ok?) ==> engine.contacts == map[]
    ensures played && stop.Some? ==> stop.value.Ok? || DeviceRefused(stop.value)
    ensures played && stop.None? ==> verdict == Failed && setup.focused
    ensures (played && setup.willing && engine.injector.sink.reliable
             && Profiles.ContactsNeeded(profile) <= config.slotCount
             && forall k | 0 <= k < |turns| :: Sound(config, turns[k].host)) ==>
              && stop.Some? && stop.value.Ok?
              && verdict == Ending(ScriptExit(setup.hasRelay, Opening(setup.hasRelay, setup.focused), turns))
    ensures played ==> match ScriptExit(setup.hasRelay, Opening(setup.hasRelay, setup.focused), turns)
                       case Some(reason) => verdict == Exit(reason) || verdict == Failed
                       case None => !verdict.Exit?
  {
    hide TouchEngine.Valid, Plan.Valid, PlannedDistinct;
    hide Profiles.IsValid, Profiles.Resolved, Profiles.Materialises, Profiles.GeometryInside, Profiles.Materialisable;
    hide Profiles.Says, Profiles.LayersByKey, Profiles.Blames, Profiles.Deserves, Profiles.HasLayer;
    hide ScopesUnique, SuppressionComputed, ShowsNothing, IdsFit, Profiles.PlannedUpTo, Profiles.AddedUpTo;
    hide ContactCount;
    var plan := Profiles.BuildPlan(profile, config, text);
    if plan.Err? {
      return false, Failed, None;
    }
    verdict, stop := PlaySession(plan.value, engine, setup, turns);
    played := true;
  }
}
