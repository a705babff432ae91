// What the world presents to the event loop, and what it says about capture: who has the focus, whether
// input is captured, whether Ctrl is down, and when the session ends
// (crates/wroid-inject/src/game_session.rs).

module CaptureScript {
  import opened Wrappers
  import opened Controls
  import opened Runtime

  datatype FocusEvent = Changed(focused: bool) | Unavailable

  datatype KeyName = F12 | Ctrl | Esc | C | OtherKey

  datatype KeyEvent = KeyEvent(name: KeyName, key: Option<Key>, transition: Transition)

  datatype HostMouse = HostMouse(event: MouseEvent, cursor: Point)

  datatype HostEvent =
    | Keyboard(keys: seq<KeyEvent>)
    | Mouse(moves: seq<HostMouse>)
    | CursorMotion(at: Option<Point>)
    | CursorButton(pressed: bool, at: Option<Point>)
    | ReaderFailed
    | Timeout
    | Disconnected

  datatype LoopExit = ExitHotkey | Interrupt | TimeLimit

  // One turn of the loop, as the world presents it.
  datatype Turn = Turn(interrupted: bool, focus: seq<FocusEvent>, graceOver: bool, host: HostEvent,
                       due: seq<bool>, timeUp: bool)

  // Everything in a script that bears on capture.
  datatype Sign = Focus(event: FocusEvent) | Silence(over: bool) | Typed(key: KeyEvent)

  datatype Watch = Watch(focusProtected: bool, waydroidFocused: bool, manuallyReleased: bool, sawFocusEvent: bool,
                         controlPressed: bool) {
    // Not released by hand, and focused where that is required.
    predicate Captured() { !manuallyReleased && (focusProtected ==> waydroidFocused) }

    function After(sign: Sign): Watch {
      match sign
      case Focus(Changed(focused)) =>
        this.(sawFocusEvent := true, waydroidFocused := focused, controlPressed := controlPressed && !focusProtected)
      case Focus(Unavailable) =>
        if focusProtected then Watch(false, false, true, sawFocusEvent, false) else this
      case Silence(over) =>
        if focusProtected && !Captured() && !manuallyReleased && !sawFocusEvent && over
        then this.(focusProtected := false, manuallyReleased := true) else this
      case Typed(event) =>
        if event.name.F12? then
          if !event.transition.Press? then this
          else
            this.(controlPressed := false,
                  manuallyReleased := Captured()
                                      || (manuallyReleased && focusProtected && !waydroidFocused))
        else if Captured() && event.name.Ctrl? then this.(controlPressed := !event.transition.Release?)
        else this
    }

    // Ctrl+Esc and Ctrl+C.
    function Ends(event: KeyEvent): Option<LoopExit> {
      if !Captured() || !controlPressed || !event.transition.Press? then None
      else if event.name.Esc? then Some(ExitHotkey)
      else if event.name.C? then Some(Interrupt)
      else None
    }

    // What a key leaves in the history of inputs: letting go of capture suspends the runtime.
    function Heard(event: KeyEvent): seq<HostInput> {
      if !Captured() then []
      else if event.name.F12? then (if event.transition.Press? then [Suspended] else [])
      else if event.key.Some? && !event.transition.Repeat? then [KeyEdge(event.key.value, event.transition.Press?)]
      else []
    }
  }

  // What is seen before the first turn.
  function Opening(hasRelay: bool, focused: bool): Watch {
    Watch(hasRelay, focused, false, false, false)
  }

  function AfterAll(watch: Watch, signs: seq<Sign>): Watch
    decreases |signs|
  {
    if signs == [] then watch else AfterAll(watch, signs[..|signs| - 1]).After(signs[|signs| - 1])
  }

  lemma {:induction false} AfterConcat(watch: Watch, front: seq<Sign>, back: seq<Sign>)
    ensures AfterAll(watch, front + back) == AfterAll(AfterAll(watch, front), back)
    decreases |back|
  {
    if back == [] {
      assert front + back == front;
    } else {
      assert (front + back)[..|front + back| - 1] == front + back[..|back| - 1];
      AfterConcat(watch, front, back[..|back| - 1]);
    }
  }

  lemma AfterOne(watch: Watch, sign: Sign)
    ensures AfterAll(watch, [sign]) == watch.After(sign)
  {
    assert [sign][..0] == [];
  }

  function Foci(events: seq<FocusEvent>): (signs: seq<Sign>)
    ensures |signs| == |events|
  {
    seq(|events|, k requires 0 <= k < |events| => Focus(events[k]))
  }

  function Keys(events: seq<KeyEvent>): (signs: seq<Sign>)
    ensures |signs| == |events|
  {
    seq(|events|, k requires 0 <= k < |events| => Typed(events[k]))
  }

  // What a relay delivers is heard before anything else.
  function RelaySigns(hasRelay: bool, turn: Turn): seq<Sign> {
    if hasRelay then Foci(turn.focus) + [Silence(turn.graceOver)] else []
  }

  function Signs(hasRelay: bool, turn: Turn): seq<Sign> {
    RelaySigns(hasRelay, turn) + if turn.host.Keyboard? then Keys(turn.host.keys) else []
  }

  function AllSigns(hasRelay: bool, turns: seq<Turn>): seq<Sign>
    decreases |turns|
  {
    if turns == [] then [] else AllSigns(hasRelay, turns[..|turns| - 1]) + Signs(hasRelay, turns[|turns| - 1])
  }

  lemma SignsSplit(hasRelay: bool, watch: Watch, turn: Turn)
    ensures AfterAll(watch, RelaySigns(true, turn)) == AfterAll(watch, Foci(turn.focus)).After(Silence(turn.graceOver))
    ensures AfterAll(watch, RelaySigns(false, turn)) == watch
    ensures AfterAll(watch, Signs(hasRelay, turn))
         == AfterAll(AfterAll(watch, RelaySigns(hasRelay, turn)),
                     if turn.host.Keyboard? then Keys(turn.host.keys) else [])
  {
    AfterConcat(watch, Foci(turn.focus), [Silence(turn.graceOver)]);
    AfterOne(AfterAll(watch, Foci(turn.focus)), Silence(turn.graceOver));
    AfterConcat(watch, RelaySigns(hasRelay, turn), if turn.host.Keyboard? then Keys(turn.host.keys) else []);
  }

  lemma TurnsSplit(hasRelay: bool, watch: Watch, turns: seq<Turn>, k: nat)
    requires k < |turns|
    ensures AfterAll(watch, AllSigns(hasRelay, turns[..k + 1]))
         == AfterAll(AfterAll(watch, AllSigns(hasRelay, turns[..k])), Signs(hasRelay, turns[k]))
  {
    assert turns[..k + 1][..k] == turns[..k];
    AfterConcat(watch, AllSigns(hasRelay, turns[..k]), Signs(hasRelay, turns[k]));
  }

  // ---------------------------------------------------------------------------------------
  // When a session ends

  // The first key of a batch that ends the session.
  function KeyExit(watch: Watch, keys: seq<KeyEvent>): Option<LoopExit>
    decreases |keys|
  {
    if keys == [] then None
    else if watch.Ends(keys[0]).Some? then watch.Ends(keys[0])
    else KeyExit(watch.After(Typed(keys[0])), keys[1..])
  }

  function TurnExit(hasRelay: bool, watch: Watch, turn: Turn): Option<LoopExit> {
    if turn.interrupted then Some(Interrupt)
    else
      var onKeys := if turn.host.Keyboard? then KeyExit(AfterAll(watch, RelaySigns(hasRelay, turn)), turn.host.keys)
                    else None;
      if onKeys.Some? then onKeys else if turn.timeUp then Some(TimeLimit) else None
  }

  function ScriptExit(hasRelay: bool, watch: Watch, turns: seq<Turn>): Option<LoopExit>
    decreases |turns|
  {
    if turns == [] then None
    else
      var front := turns[..|turns| - 1];
      var before := ScriptExit(hasRelay, watch, front);
      if before.Some? then before
      else TurnExit(hasRelay, AfterAll(watch, AllSigns(hasRelay, front)), turns[|turns| - 1])
  }

  lemma {:induction false} ScriptExitStays(hasRelay: bool, watch: Watch, turns: seq<Turn>, n: nat)
    requires n <= |turns| && ScriptExit(hasRelay, watch, turns[..n]).Some?
    ensures ScriptExit(hasRelay, watch, turns) == ScriptExit(hasRelay, watch, turns[..n])
    decreases |turns|
  {
    if n == |turns| {
      assert turns[..n] == turns;
    } else {
      assert turns[..|turns| - 1][..n] == turns[..n];
      ScriptExitStays(hasRelay, watch, turns[..|turns| - 1], n);
    }
  }

  lemma ScriptExitStep(hasRelay: bool, watch: Watch, turns: seq<Turn>, k: nat)
    requires k < |turns| && ScriptExit(hasRelay, watch, turns[..k]).None?
    ensures ScriptExit(hasRelay, watch, turns[..k + 1])
         == TurnExit(hasRelay, AfterAll(watch, AllSigns(hasRelay, turns[..k])), turns[k])
  {
    assert turns[..k + 1][..k] == turns[..k];
  }

  // ---------------------------------------------------------------------------------------
  // What the signs say

  predicate IsChange(sign: Sign) { sign.Focus? && sign.event.Changed? }

  ghost predicate LastChange(signs: seq<Sign>, i: int)
    requires 0 <= i < |signs|
  {
    IsChange(signs[i]) && forall j | i < j < |signs| :: !IsChange(signs[j])
  }

  ghost predicate Unchanged(signs: seq<Sign>) {
    forall i | 0 <= i < |signs| :: !IsChange(signs[i])
  }

  // While protection lasts the relay was never lost, and the focus is what the last change said.
  lemma {:induction false} ProtectedFocus(watch: Watch, signs: seq<Sign>)
    requires AfterAll(watch, signs).focusProtected
    ensures watch.focusProtected && Focus(Unavailable) !in signs
    ensures forall i | 0 <= i < |signs| && LastChange(signs, i) ::
              signs[i].Focus? && signs[i].event == Changed(AfterAll(watch, signs).waydroidFocused)
    ensures Unchanged(signs) ==> AfterAll(watch, signs).waydroidFocused == watch.waydroidFocused
    decreases |signs|
  {
    if signs != [] {
      var n := |signs| - 1;
      var front, last := signs[..n], signs[n];
      ProtectedFocus(watch, front);
      assert signs == front + [last];
      if !IsChange(last) {
        forall i | 0 <= i < n && LastChange(signs, i) ensures LastChange(front, i) {
          assert forall j | i < j < n :: front[j] == signs[j];
        }
        assert Unchanged(signs) ==> Unchanged(front) by {
          assert forall j | 0 <= j < n :: front[j] == signs[j];
        }
      } else {
        assert !Unchanged(signs) && forall i | 0 <= i < n :: !LastChange(signs, i);
      }
    }
  }

  // A relay that ever spoke is remembered ...
  lemma {:induction false} SpokenIsRemembered(watch: Watch, signs: seq<Sign>)
    ensures AfterAll(watch, signs).sawFocusEvent <==> watch.sawFocusEvent || !Unchanged(signs)
    decreases |signs|
  {
    if signs != [] {
      var front := signs[..|signs| - 1];
      SpokenIsRemembered(watch, front);
      assert Unchanged(signs) <==> Unchanged(front) && !IsChange(signs[|signs| - 1]) by {
        assert forall j | 0 <= j < |front| :: front[j] == signs[j];
      }
    }
  }

  // ... and protection ends only where the relay is lost, or stays silent past the grace period from the start
  // while nothing is captured. From then on input is released by hand.
  lemma {:induction false} ProtectionEnds(watch: Watch, signs: seq<Sign>) returns (i: nat)
    requires watch.focusProtected && !AfterAll(watch, signs).focusProtected
    ensures i < |signs| && AfterAll(watch, signs[..i + 1]).manuallyReleased
    ensures signs[i] == Focus(Unavailable)
            || (signs[i] == Silence(true) && !watch.sawFocusEvent && Unchanged(signs[..i])
                && !AfterAll(watch, signs[..i]).Captured())
    decreases |signs|
  {
    i := |signs| - 1;
    var front := signs[..i];
    assert signs[..i + 1] == signs;
    if AfterAll(watch, front).focusProtected {
      SpokenIsRemembered(watch, front);
    } else {
      i := ProtectionEnds(watch, front);
      assert front[..i] == signs[..i] && front[..i + 1] == signs[..i + 1];
    }
  }

  predicate IsRelease(sign: Sign) { sign.Typed? && sign.key.name.F12? && sign.key.transition.Press? }

  // Ctrl went down, or stayed down, where it was listened to.
  ghost predicate CtrlHeard(watch: Watch, signs: seq<Sign>, i: int)
    requires 0 <= i < |signs|
  {
    && signs[i].Typed? && signs[i].key.name.Ctrl? && !signs[i].key.transition.Release?
    && AfterAll(watch, signs[..i]).Captured()
  }

  // It was let go of, or forgotten: with F12, and with every focus event under protection.
  ghost predicate CtrlForgotten(watch: Watch, signs: seq<Sign>, i: int)
    requires 0 <= i < |signs|
  {
    || IsRelease(signs[i])
    || (signs[i].Focus? && AfterAll(watch, signs[..i]).focusProtected)
    || (signs[i].Typed? && signs[i].key.name.Ctrl? && signs[i].key.transition.Release?
        && AfterAll(watch, signs[..i]).Captured())
  }

  ghost predicate HeldFrom(watch: Watch, signs: seq<Sign>, i: int)
    requires 0 <= i < |signs|
  {
    CtrlHeard(watch, signs, i) && forall j | i < j < |signs| :: !CtrlForgotten(watch, signs, j)
  }

  // Ctrl counts as held exactly if it was heard and not forgotten since.
  lemma {:induction false} CtrlIsHeld(watch: Watch, signs: seq<Sign>)
    requires !watch.controlPressed
    ensures AfterAll(watch, signs).controlPressed <==> exists i :: 0 <= i < |signs| && HeldFrom(watch, signs, i)
    decreases |signs|
  {
    if signs != [] {
      var n := |signs| - 1;
      var front := signs[..n];
      CtrlIsHeld(watch, front);
      forall i | 0 <= i < n ensures HeldFrom(watch, signs, i) <==>
          HeldFrom(watch, front, i) && !CtrlForgotten(watch, signs, n) {
        forall j | 0 <= j < n
          ensures CtrlHeard(watch, signs, j) == CtrlHeard(watch, front, j)
          ensures CtrlForgotten(watch, signs, j) == CtrlForgotten(watch, front, j)
        {
          assert signs[..j] == front[..j];
        }
      }
      assert HeldFrom(watch, signs, n) <==> CtrlHeard(watch, signs, n);
      hide HeldFrom;
      if i :| 0 <= i < |front| && HeldFrom(watch, front, i) {
        assert HeldFrom(watch, signs, i) <==> !CtrlForgotten(watch, signs, n);
      }
    }
  }

  function Presses(signs: seq<Sign>): nat
    decreases |signs|
  {
    if signs == [] then 0 else Presses(signs[..|signs| - 1]) + if IsRelease(signs[|signs| - 1]) then 1 else 0
  }

  // Where the focus does not stand in the way, F12 takes and gives back in turn.
  lemma {:induction false} F12Alternates(watch: Watch, signs: seq<Sign>)
    requires watch.focusProtected ==> watch.waydroidFocused
    requires forall sign | sign in signs :: sign.Typed?
    ensures AfterAll(watch, signs).Captured()
            == (if Presses(signs) % 2 == 0 then watch.Captured() else !watch.Captured())
    ensures AfterAll(watch, signs).focusProtected == watch.focusProtected
    ensures AfterAll(watch, signs).waydroidFocused == watch.waydroidFocused
    decreases |signs|
  {
    if signs != [] {
      assert forall sign | sign in signs[..|signs| - 1] :: sign in signs;
      F12Alternates(watch, signs[..|signs| - 1]);
    }
  }

  // The first key that ends the session does, with Esc or with C.
  lemma {:induction false} FirstToEnd(watch: Watch, keys: seq<KeyEvent>, m: nat)
    requires m < |keys|
    requires forall k | 0 <= k < m :: AfterKeys(watch, keys, k).Ends(keys[k]).None?
    requires AfterKeys(watch, keys, m).Ends(keys[m]).Some?
    ensures KeyExit(watch, keys) == AfterKeys(watch, keys, m).Ends(keys[m])
    decreases m
  {
    hide Watch.After, Watch.Ends, AfterKeys;
    AfterNoKeys(watch, keys);
    if m > 0 {
      var next, rest := watch.After(Typed(keys[0])), keys[1..];
      forall k | 0 <= k < m ensures AfterKeys(next, rest, k) == AfterKeys(watch, keys, k + 1)
          && rest[k] == keys[k + 1] {
        FirstApart(watch, keys, k + 1);
      }
      FirstToEnd(next, rest, m - 1);
    }
  }

  // After the first k keys of a batch.
  function AfterKeys(watch: Watch, keys: seq<KeyEvent>, k: nat): Watch
    requires k <= |keys|
  {
    AfterAll(watch, Keys(keys[..k]))
  }

  lemma AfterNoKeys(watch: Watch, keys: seq<KeyEvent>)
    ensures AfterKeys(watch, keys, 0) == watch
  {
  }

  lemma FirstApart(watch: Watch, keys: seq<KeyEvent>, k: nat)
    requires 0 < k <= |keys|
    ensures AfterKeys(watch, keys, k) == AfterKeys(watch.After(Typed(keys[0])), keys[1..], k - 1)
  {
    hide Watch.After;
    assert Keys(keys[..k]) == [Typed(keys[0])] + Keys(keys[1..][..k - 1]);
    AfterConcat(watch, [Typed(keys[0])], Keys(keys[1..][..k - 1]));
    AfterOne(watch, Typed(keys[0]));
  }

  // And no other key does: the one that ends a session was pressed where input is captured and Ctrl is held.
  lemma {:induction false} EndedBy(watch: Watch, keys: seq<KeyEvent>) returns (m: nat)
    requires KeyExit(watch, keys).Some?
    ensures m < |keys| && AfterKeys(watch, keys, m).Captured() && AfterKeys(watch, keys, m).controlPressed
    ensures keys[m].transition.Press? && (keys[m].name.Esc? || keys[m].name.C?)
    ensures KeyExit(watch, keys) == Some(if keys[m].name.Esc? then ExitHotkey else Interrupt)
    decreases |keys|
  {
    hide Watch.After, AfterKeys;
    AfterNoKeys(watch, keys);
    if watch.Ends(keys[0]).Some? {
      m := 0;
    } else {
      m := EndedBy(watch.After(Typed(keys[0])), keys[1..]);
      FirstApart(watch, keys, m + 1);
      m := m + 1;
    }
  }

  // Esc or C pressed where input is captured and Ctrl is held ends the session, if no key before it does.
  lemma HotkeyEnds(hasRelay: bool, start: Watch, turns: seq<Turn>, n: nat, m: nat)
    requires n < |turns| && turns[n].host.Keyboard? && m < |turns[n].host.keys| && !turns[n].interrupted
    requires ScriptExit(hasRelay, start, turns[..n]).None?
    requires var before := AfterAll(AfterAll(start, AllSigns(hasRelay, turns[..n])), RelaySigns(hasRelay, turns[n]));
             var keys := turns[n].host.keys;
             var watch := AfterKeys(before, keys, m);
             && (forall k | 0 <= k < m :: AfterKeys(before, keys, k).Ends(keys[k]).None?)
             && watch.Captured() && watch.controlPressed
             && (keys[m].name.Esc? || keys[m].name.C?) && keys[m].transition.Press?
    ensures ScriptExit(hasRelay, start, turns)
            == Some(if turns[n].host.keys[m].name.Esc? then ExitHotkey else Interrupt)
  {
    var before := AfterAll(AfterAll(start, AllSigns(hasRelay, turns[..n])), RelaySigns(hasRelay, turns[n]));
    hide AfterAll, AllSigns, RelaySigns, KeyExit, ScriptExit;
    FirstToEnd(before, turns[n].host.keys, m);
    ScriptExitStep(hasRelay, start, turns, n);
    ScriptExitStays(hasRelay, start, turns, n + 1);
  }

  // ---------------------------------------------------------------------------------------
  // What is left in the history

  function HeardAll(watch: Watch, keys: seq<KeyEvent>): seq<HostInput>
    decreases |keys|
  {
    if keys == [] then []
    else
      var front, last := keys[..|keys| - 1], keys[|keys| - 1];
      HeardAll(watch, front) + AfterAll(watch, Keys(front)).Heard(last)
  }

  // What changes of focus leave: losing what was captured suspends the runtime.
  function FocusHeard(watch: Watch, events: seq<FocusEvent>): seq<HostInput>
    decreases |events|
  {
    if events == [] then []
    else
      var front, last := events[..|events| - 1], events[|events| - 1];
      var before := AfterAll(watch, Foci(front));
      FocusHeard(watch, front) + (if before.Captured() && !before.After(Focus(last)).Captured() then [Suspended]
                                  else [])
  }

  lemma FocusHeardStep(watch: Watch, events: seq<FocusEvent>, k: nat)
    requires k < |events|
    ensures var before := AfterAll(watch, Foci(events[..k]));
            && AfterAll(watch, Foci(events[..k + 1])) == before.After(Focus(events[k]))
            && FocusHeard(watch, events[..k + 1])
               == FocusHeard(watch, events[..k])
                  + (if before.Captured() && !before.After(Focus(events[k])).Captured() then [Suspended] else [])
  {
    hide Watch.After;
    assert events[..k + 1][..k] == events[..k] && Foci(events[..k + 1])[..k] == Foci(events[..k]);
  }

  function HostHeard(watch: Watch, aiming: bool, host: HostEvent): seq<HostInput> {
    match host
    case Keyboard(keys) => HeardAll(watch, keys)
    case Mouse(moves) => if watch.Captured() && aiming then ButtonEdges(moves) else []
    case _ => []
  }

  // What a whole turn leaves in the history of inputs, given whether the mouse aims in it.
  function TurnHeard(hasRelay: bool, watch: Watch, aiming: bool, turn: Turn): seq<HostInput> {
    (if hasRelay then FocusHeard(watch, turn.focus) else [])
    + HostHeard(AfterAll(watch, RelaySigns(hasRelay, turn)), aiming, turn.host)
  }

  // The presses and releases of a batch; F12 is no profile's key.
  function Edges(keys: seq<KeyEvent>): seq<HostInput>
    decreases |keys|
  {
    if keys == [] then []
    else
      var last := keys[|keys| - 1];
      Edges(keys[..|keys| - 1])
      + match last
        case KeyEvent(F12, _, _) => []
        case KeyEvent(_, Some(key), Press) => [KeyEdge(key, true)]
        case KeyEvent(_, Some(key), Release) => [KeyEdge(key, false)]
        case _ => []
  }

  ghost predicate NoF12(keys: seq<KeyEvent>) {
    forall k | 0 <= k < |keys| :: !(keys[k].name.F12? && keys[k].transition.Press?)
  }

  lemma PlainKey(watch: Watch, event: KeyEvent)
    requires NoF12([event])
    ensures watch.After(Typed(event)).Captured() == watch.Captured()
    ensures watch.Heard(event) == if watch.Captured() then Edges([event]) else []
  {
    assert event in [event] && Edges([event][..0]) == [];
  }

  lemma EdgesOfOne(keys: seq<KeyEvent>)
    requires keys != []
    ensures Edges(keys) == Edges(keys[..|keys| - 1]) + Edges([keys[|keys| - 1]])
  {
    assert Edges([keys[|keys| - 1]][..0]) == [];
  }

  // Captured input is heard edge by edge, and other input not at all.
  lemma {:induction false} CapturedIsHeard(watch: Watch, keys: seq<KeyEvent>)
    requires NoF12(keys)
    ensures AfterAll(watch, Keys(keys)).Captured() == watch.Captured()
    ensures HeardAll(watch, keys) == if watch.Captured() then Edges(keys) else []
    decreases |keys|
  {
    hide Watch.After, Watch.Heard, Watch.Captured;
    if keys != [] {
      var front, last := keys[..|keys| - 1], keys[|keys| - 1];
      CapturedIsHeard(watch, front);
      assert Keys(keys)[..|keys| - 1] == Keys(front);
      assert NoF12([last]);
      PlainKey(AfterAll(watch, Keys(front)), last);
      EdgesOfOne(keys);
    }
  }

  // The presses and releases of a batch of mouse events.
  function ButtonEdges(moves: seq<HostMouse>): seq<HostInput>
    decreases |moves|
  {
    if moves == [] then []
    else
      ButtonEdges(moves[..|moves| - 1])
      + match moves[|moves| - 1].event
        case ButtonChange(button, Press) => [ButtonEdge(button, true)]
        case ButtonChange(button, Release) => [ButtonEdge(button, false)]
        case _ => []
  }

  lemma NoButtonEdges(moves: seq<HostMouse>)
    ensures ButtonEdges(moves[..0]) == []
  {
  }

  lemma ButtonEdgesStep(moves: seq<HostMouse>, k: nat)
    requires k < |moves|
    ensures ButtonEdges(moves[..k + 1]) == ButtonEdges(moves[..k]) + (match moves[k].event
                                                                      case ButtonChange(button, Press) =>
                                                                        [ButtonEdge(button, true)]
                                                                      case ButtonChange(button, Release) =>
                                                                        [ButtonEdge(button, false)]
                                                                      case _ => [])
  {
    assert moves[..k + 1][..k] == moves[..k];
  }
}
