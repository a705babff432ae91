# Verification of the Wroid input path and its companions

Wroid turns the keys and the mouse of a Linux desktop into touches of an Android container. This
project models the parts of it that hold state and take decisions, and proves what they are for.

**From frames to the device** (`Touch`, `TypeB`, `Injector`). A touch frame is given a meaning as a
fold over the map from contact to position. The slot table of the uinput injector is proved to refine
that map, error for error, and the batches it emits are proved, over whole runs, to keep a receiver
written after the kernel document "Multi-touch (MT) Protocol", section "Protocol Example B", in exact
agreement with the table. The touch engine in front of it is atomic: contacts, table and device show
the same thing after every call, whatever fails.

**From inputs to contacts** (`Controls`, `Asked`, `ContactDrivers`, `AimControl`, `AimTravel`, `Slots`,
`Ownership`, `Runtime`, `Profiles`). The held keys, buttons, modifiers and layers are proved to be what an independent reading of
the event history says. A reconcile pass settles every control, in order (first only giving up, then only
taking), and reaches a fixpoint; after every successful event bookkeeping and engine agree, and the screen
shows what `Asked` reads off the history and the plan: which hold is down, where each stick is, what a
press fires. Hence no touch is stuck, and with hold layers the past leaves no trace. Apart from the device, every event (pass,
aim, tap, motion, tick) fails exactly if its steps run out of slots; with a slot for every contact of the
plan nothing but the device fails one, and `OpposedHandoff` shows, for a device of any size, that fitting
before and after is not enough. `Profiles` shows that a document that passes validation becomes a plan
with everything the runtime relies on.

**The capture loop** (`CaptureScript`, `CaptureLoop`). `CaptureScript` says, from the events alone, who has
the input, what is left in the history and when a session ends. Over every run of focus changes, F12,
relay failures, mouse, cursor and time the loop is proved to do what the script says: capture is safe,
never dead, and in the right mode, and while input is released nobody reading the device node sees a touch.

**Companions.** `AimMotion`: the sub-pixel accumulator conserves motion, and the integer geometry of aim.
`Framing` and `Bridge`: line framing that does not depend on how bytes arrive, and client, broker and
privileged helper as interleaved processes. `Archive`: the ZIP central directory, read exactly.
`Scaling`: profile validation and scaling. `Sessions`: the daemon's two tables. `BridgeConfig`: a
configuration edit that survives a crash at any write.

Devices, processes, files and the environment appear as outcomes: a write, a spawn, a signal or a wait may
succeed or fail, and every contract holds either way. Each failure is accounted for: a device or a socket
that is `reliable`, and threads, an overlay or a helper that are `willing`, refuse nothing, files count what
they refused, and with those nothing fails that need not.

## Reading the model

- Objects whose methods update their fields are classes with those fields. Ghost fields log what a
  contract speaks about: accepted frames, the input history, the ownership changes of the last pass.
- The 64-bit and 8-bit masks of keys, modifiers, layers and buttons are sets of bit indices.
- A mouse-aim controller is a value stored in the runtime's sequence; each of its methods takes the old
  value and returns the new one. Whether a pause is over, or a position due to be repeated, comes in with
  the call; scale, remainders, landing and threshold are computed.
- `Staged` says how a list of steps came out: on success it added what it should and never ran out of slots,
  and it failed, the device apart, only by running out.
- A joystick is its contact and its nine targets; the target for a neutral direction is none.
- `Settled` says every control is what the held inputs ask for; `Grounded` says the engine shows
  exactly the contacts the bookkeeping accounts for.
- Cleanup restores the main configuration exactly if no include was added, or the text ended in one
  newline and had no carriage return before a newline; `RemoveUndoesAdd` and `InstallThenCleanup` say so.
- Laws one might expect that do not hold of the code are stated as they are. A frame that lifts, lands and
  moves one contact confuses the translator (`DisorderlyFrameDisagrees`), and it refuses an accepted frame
  exactly if some event lifts a contact that was not down before the frame, or puts down one that is not
  down after it (`RefusedIffUnseen`). Letting go of one of two opposing keys puts a resting stick down
  (`ReleaseMayPress`), so that a handoff can need more slots on the way than at either end
  (`OpposedHandoff.Overflowing`); `Crowded` is the exact condition. All radii come back from another
  resolution exactly if the axes scale alike and do not shrink (`RadiiReturnIff`). Where the axes scale
  alike, shrinking or not, a radius comes back exactly if some radius scales to it from there
  (`AlikeRadiusReturnsIff`, with the clamps `ClampedRadiusReturnsIff`); where they scale differently it
  grows from an explicit size on (`RadiusGrows`).
- Contact ids have 16 bits and their counter saturates; where a plan needs more, ids repeat. The contracts
  say exactly when (`IdsFit`, `ContactsNeeded`).

## Model

| member | source | states |
|---|---|---|
| Touch.CountersAgree | crates/wroid-inject/src/state.rs:28-45 | the cached counter, the number of occupied slots and the size of the contact map are equal, so no slot is free exactly at capacity, and there is a primary position exactly when something is active |
| Touch.StepRefines | crates/wroid-inject/src/transition.rs:10-51 | one event on the slot table is one event on the contact map: same success, same error, and the table stays valid (no contact in two slots, positions on the surface) |
| Touch.NextStateRefines | crates/wroid-inject/src/transition.rs:7-52 | a whole frame folded over the slot table is accepted exactly when the contact map with capacity and bounds accepts it, with the same first error and the same contacts |
| Touch.NextStateSplit | crates/wroid-inject/src/transition.rs:7-52 | folding a frame is folding its front and then its back, so a prefix of a frame has a meaning of its own |
| Touch.Persists | crates/wroid-inject/src/transition.rs:10-51 | a contact no event of the frame lifts keeps its slot through the whole frame |
| Touch.Originates | crates/wroid-inject/src/transition.rs:10-51 | a contact no event of the frame puts down was in its final slot all along |
| TypeB.TranslatedSlotIsTouched | crates/wroid-inject/src/translate.rs:33-58 | looking a slot up before or after the whole frame, as the translator does, finds the slot the fold really uses at each event, for every orderly frame |
| TypeB.BatchSimulates | crates/wroid-inject/src/translate.rs:7-73 | a receiver of Protocol Type B that agrees with the table agrees with the next table after the emitted batch: slots, tracking ids, positions, BTN_TOUCH, and ABS_X and ABS_Y, which are those of the receiver's own first slot that tracks a contact |
| TypeB.PrimaryIsFirst | crates/wroid-inject/src/state.rs:40-45 | whenever some slot of a receiver in agreement tracks a contact, ABS_X and ABS_Y are the x and y of the lowest such slot |
| TypeB.PlanRefinesPlay | crates/wroid-inject/src/translate.rs:7-73 | for an orderly frame everything decided before the write is what the contact map decides, error for error; the translator adds no refusal of its own |
| TypeB.RunRefines | crates/wroid-inject/src/translate.rs:7-73 | after any sequence of frames, accepted, refused or lost to the device, replaying all emitted batches gives exactly the slot table, with ABS_X and ABS_Y at the receiver's first tracked slot |
| TypeB.DisorderlyFrameDisagrees | crates/wroid-inject/src/translate.rs:33-58 | a concrete frame (up, down, move of one contact with a lower slot free) after which the receiver and the table differ; such frames never leave the engine, which refuses repeated contacts |
| TypeB.RefusedIffUnseen | crates/wroid-inject/src/translate.rs:33-58 | the translator refuses a frame the contact map accepts exactly if some event lifts a contact that was not down before the frame or puts down one that is not down after it; the first such event gives the error |
| TypeB.LandAndLiftIsRefused | crates/wroid-inject/src/translate.rs:33-58 | its simplest case, down then up of one contact: the contact map accepts the frame and is unchanged, the translator refuses it, for every valid table with a slot free |
| TypeB.RecenterNeedsSpareSlot | crates/wroid-runtime/src/mouse_aim.rs:619-626 | the down-then-up frame of a gapless recenter is accepted exactly if a slot is spare; the same events the other way round always are |
| Injector.UinputTouchInjector.ComputeNextState | crates/wroid-inject/src/transition.rs:7-52 | the imperative fold computes the specification fold and therefore agrees with the contact map |
| Injector.UinputTouchInjector.PushEvents | crates/wroid-inject/src/translate.rs:31-60 | the loop over the scratch buffer appends exactly the translated events |
| Injector.UinputTouchInjector.InjectFrame | crates/wroid-inject/src/translate.rs:7-73 | on any error, a refused write included, table and device are as before; an orderly non-empty frame is accepted exactly when the contact map accepts it, barring the device, which can refuse only if it is not reliable; the device stays in step with the table, its single-touch position included |
| Injector.AdmittedPlays | crates/wroid-runtime/src/lib.rs:227-281 | a frame the engine admits can fail in the injector only for lack of a slot or a position off the surface, and otherwise both sides compute the same contacts |
| Injector.TouchEngine.ValidateFrame | crates/wroid-runtime/src/lib.rs:227-267 | accepts exactly the non-empty frames without repeated contacts whose downs are inactive and whose other events are active, and each refusal names a witness |
| Injector.TouchEngine.Submit | crates/wroid-runtime/src/lib.rs:326-331 | atomic: on success the contacts change as the frame says, on any error nothing changes; engine, table and device keep showing the same contacts |
| Injector.TouchEngine.BeginContact | crates/wroid-runtime/src/lib.rs:333-343 | puts one inactive contact down where it says; with room and on the surface only the device can refuse, without room the answer is that no slot is free |
| Injector.TouchEngine.LiftContact | crates/wroid-runtime/src/lib.rs:357-369 | lifts one active contact and nothing else; only the device can refuse |
| Injector.TouchEngine.CancelAll | crates/wroid-runtime/src/lib.rs:375-385 | one frame lifts everything; it fails only with the device and then changes nothing |
| Injector.CancelFrameLifts | crates/wroid-runtime/src/lib.rs:375-385 | the frame of cancels, one per contact in ascending order, is admissible and ends with no contact |
| Controls.OwnerIsGreatest | crates/wroid-inject/src/game_session.rs:2176-2213 | the layer selected for an input is the greatest active layer that binds it, and there is none exactly if no active layer does |
| Controls.LayerOwnership | crates/wroid-inject/src/game_session.rs:2534-2577 | every binding available on an input lies in the layer that owns it, or in base when none does |
| Controls.PrecomputeSuppression | crates/wroid-runtime/src/profile_controls.rs:437-468 | the suppression table holds exactly the modifiers of same-layer siblings on each of the binding's inputs, and four entries suffice |
| Controls.AvailableIsExclusive | crates/wroid-inject/src/game_session.rs:2534-2562 | two bindings answer one input at once only if both carry a modifier, the modifiers differ and both are held |
| Asked.AnswersIffAvailable | crates/wroid-inject/src/game_session.rs:2534-2577 | a binding is available on an input exactly if it lies in the greatest active layer that binds it, or in base if none does, its modifier is held, and no sibling's modifier is held where it has none; layers, modifiers and siblings are read off the history and the plan alone |
| Asked.HoldRead | crates/wroid-inject/src/game_session.rs:1974-1985 | a hold is wanted exactly if its own key or button is held, activates no layer, and answers |
| Asked.DirectionRead | crates/wroid-inject/src/game_session.rs:1986-2038 | each of the four directions of a hold joystick is wanted exactly if the key bound to that direction is held, activates no layer, and answers |
| Asked.SettledFollows | crates/wroid-inject/src/game_session.rs:1953-2174 | a settled state in agreement with the engine shows what the history asks for: every hold contact at its point or up, every stick at the target of its row and column or up |
| Asked.OnlyUpShowsUp | crates/wroid-runtime/src/joystick.rs:231-291 | with only the up key held and answering, the contact of the stick is at the target for up |
| Asked.PassRead | crates/wroid-inject/src/game_session.rs:1953-2174 | after a pass the directions of a hold joystick are those its held keys ask for, and a toggle joystick keeps those of its directions whose keys answer |
| Controls.HeldCharacterized | crates/wroid-inject/src/game_session.rs:1846-1882 | whatever happened: a key is held if pressed and not released since (nor suspended), held modifiers are held keys that are modifier keys, a hold layer is on while its key is down and a toggle layer after an odd number of presses |
| Controls.HistoryIndependence | crates/wroid-inject/src/game_session.rs:1846-1882 | with hold layers only, two histories in which the same keys and buttons are held now lead to the same keys, modifiers, buttons and layers |
| Controls.NothingHeldNothingWanted | crates/wroid-inject/src/game_session.rs:1955-2085 | with nothing held no Hold control and no Hold joystick is wanted, whatever the layers |
| Controls.ReleaseMayPress | crates/wroid-inject/src/game_session.rs:2087-2114 | a stick that is up can be put down by letting go of directions exactly if some are asked for, which then oppose each other |
| Controls.OpposedReleasePresses | crates/wroid-inject/src/game_session.rs:2087-2114 | a concrete case: with left and right held the stick rests, and letting go of right moves it to the left |
| ContactDrivers.ApplyJoystick | crates/wroid-runtime/src/joystick.rs:231-291 | the stick's contact ends where the direction points, or up for a neutral one, with at most one frame; nothing else moves; apart from the device it fails exactly if it must be put down without a free slot |
| ContactDrivers.SetHold | crates/wroid-inject/src/game_session.rs:2487-2516 | the hold contact is down exactly if pressed, and exactly the frame for that is sent, at the point of the binding; apart from the device it fails exactly if it must be put down without a free slot |
| ContactDrivers.TapContact | crates/wroid-inject/src/game_session.rs:2459-2485 | a down and an up frame at the point of the binding, after which the contacts are what they were; apart from the device it fails exactly if no slot is free |
| AimControl.ActivateAim | crates/wroid-runtime/src/mouse_aim.rs:427-441 | puts the aim contact down at the origin unless aim is active already; an error changes nothing; apart from the device it fails exactly if it must put it down without a free slot |
| AimControl.DeactivateAim | crates/wroid-runtime/src/mouse_aim.rs:539-561 | aim is idle afterwards with its contacts up, its remainders dropped and sights lowered; only the device can prevent it |
| AimControl.CancelAim | crates/wroid-runtime/src/mouse_aim.rs:563-582 | forgets the contact before submitting, so the controller is idle even after an error and a second call submits nothing and succeeds |
| AimControl.TickAim | crates/wroid-runtime/src/mouse_aim.rs:501-537 | ends a pause by putting the waiting contact down where the motion made up in the pause takes it from the origin, or repeats the position unchanged; apart from the device it fails exactly if the pause ends on a full device |
| AimControl.ExchangeContacts | crates/wroid-runtime/src/mouse_aim.rs:619-626 | one frame puts a contact down and lifts another; apart from the device it fails exactly if no slot is to spare |
| AimControl.SwapAim | crates/wroid-runtime/src/mouse_aim.rs:608-655 | without a gap the two contacts change roles: the new one lands where the motion takes it from the origin, the old one is up; apart from the device it fails exactly on a full device |
| AimControl.RecenterAim | crates/wroid-runtime/src/mouse_aim.rs:608-655 | with a gap the contact is lifted and its successor waits with the motion to make up; without, they swap at once; controller and engine keep agreeing |
| AimControl.MoveAim | crates/wroid-runtime/src/mouse_aim.rs:464-499 | motion goes through the accumulator under the scale in force; spelled out in the fields of the controller, pixels and remainders account for motion times sensitivity (times the multiplier in sights) whenever nothing saturates; during a pause it adds up, and otherwise the contact goes as far as its region lets it, unless that is past the threshold, where it recentres: exactly which contact is where afterwards, and exactly when it fails, the device apart |
| AimControl.ScalingAccounts | crates/wroid-runtime/src/mouse_aim.rs:584-594 | what `MoveAim` scales by, in the fields of the controller: numerator over denominator of the sensitivity, and in sights the product of both ratios |
| AimTravel.LandingIs | crates/wroid-runtime/src/mouse_aim.rs:619-655 | where a recentred contact lands: the origin moved by the pixels of the motion, kept inside the region |
| AimTravel.TooFarIs | crates/wroid-runtime/src/mouse_aim.rs:596-606 | when a move recentres: the target is further from the origin than the threshold allows, by the squares of the distances |
| AimTravel.RunTravels | crates/wroid-runtime/src/mouse_aim.rs:464-499 | over any run of moves that stay free of border and threshold, what the contact travels and the remainders account for all of the motion times the scale, axis by axis |
| AimTravel.OrdinaryRunTravels | crates/wroid-runtime/src/mouse_aim.rs:464-499 | for any such run of ordinary motion the travel is the total motion times the sensitivity, up to less than a pixel on each axis |
| AimControl.RunAimCommand | crates/wroid-inject/src/game_session.rs:1888-1903 | whatever is asked of a controller: who aims afterwards, only its contacts are touched, the remainders stay below a pixel of the scale in force, and apart from the device it fails exactly if its steps run out of slots |
| AimControl.AimController.Sighted | crates/wroid-runtime/src/mouse_aim.rs:455-462 | a change of scale drops the remainders, so that they stay below a pixel of the scale in force; no change leaves the controller alone |
| AimControl.RoomForCommand | crates/wroid-runtime/src/mouse_aim.rs:427-642 | one free slot is enough for anything a controller is asked, and switching off needs none |
| Slots.OverflowsMeansPeak | crates/wroid-inject/src/transition.rs:14-24 | steps that put down at most one contact each run out of slots exactly if after some of them more contacts would be down than there are slots |
| Slots.OverflowsConcat | crates/wroid-inject/src/transition.rs:14-24 | steps one after the other run out of slots exactly if the first ones do, or the others do from where those lead |
| Ownership.AllocatePoints | crates/wroid-inject/src/game_session.rs:1614-1663 | the contact ids handed to taps, holds and the cursor collide with each other and with joystick or aim contacts exactly if the plan's own do or the counter saturates |
| Ownership.Reground | crates/wroid-inject/src/game_session.rs:2087-2172 | a change confined to one control's contacts leaves every other control's bookkeeping in agreement with the engine |
| Ownership.PeakBound | crates/wroid-inject/src/game_session.rs:2087-2172 | at no moment of an ordered pass are more contacts down than before it or after it |
| Ownership.HoldPeak | crates/wroid-inject/src/game_session.rs:2087-2172 | at no moment of any pass are more hold bindings active than before it or after it |
| Ownership.CrowdedMeansPeak | crates/wroid-inject/src/game_session.rs:2087-2172 | the steps of a pass run out of slots exactly if at some moment they would have more contacts down than the device has slots |
| Ownership.SettledMeansGranted | crates/wroid-inject/src/game_session.rs:1953-2173 | a control state is settled exactly if a pass has nothing to give up and nothing to take |
| Ownership.GrantedSettles | crates/wroid-inject/src/game_session.rs:1953-2173 | granting what a pass wants reaches a fixpoint, toggle joysticks included |
| Ownership.ToggledSettled | crates/wroid-inject/src/game_session.rs:2245-2326 | toggling directions by available keys keeps a settled control settled |
| OpposedHandoff.Overflowing | crates/wroid-inject/src/game_session.rs:2087-2172 | for every number of slots a device can have: a plan, settled and grounded with all slots taken, that wants as many contacts after a layer key goes down; the steps of the pass need one more |
| OpposedHandoff.History | crates/wroid-inject/src/game_session.rs:1846-1882 | that situation comes about by the left key, the right key and the fire keys going down, and then the layer's |
| Runtime.UnifiedRuntime.constructor | crates/wroid-inject/src/game_session.rs:1611-1700 | a fresh runtime is valid, grounded and settled, with nothing held, nobody aiming and nothing on the screen, exactly if the contact ids differ |
| Runtime.UnifiedRuntime.RefreshSelectedInputLayers | crates/wroid-inject/src/game_session.rs:2176-2213 | the table of 51 inputs holds, for each, the owner the specification names |
| Runtime.UnifiedRuntime.ComputeDesired | crates/wroid-inject/src/game_session.rs:1955-2085 | the first loop computes for every control what the held inputs ask for, which `Asked.HoldRead` and `Asked.DirectionRead` spell out |
| Runtime.UnifiedRuntime.ReleaseJoystick | crates/wroid-inject/src/game_session.rs:2087-2114 | one stick is cut to its old and wanted directions; apart from the device this fails exactly where letting go puts a resting stick down on a full device |
| Runtime.UnifiedRuntime.ReleaseJoysticks | crates/wroid-inject/src/game_session.rs:2087-2114 | every joystick is cut to its old and wanted directions; ownership only shrinks; without opposing keys so do the contacts; apart from the device it fails exactly where its steps run out of slots |
| Runtime.UnifiedRuntime.ReleaseHolds | crates/wroid-inject/src/game_session.rs:2116-2132 | every hold that is no longer wanted is lifted, and only the device can prevent it |
| Runtime.UnifiedRuntime.AcquireWanted | crates/wroid-inject/src/game_session.rs:2134-2172 | every hold and joystick ends as wanted; ownership only grows; apart from the device it fails exactly where its steps run out of slots |
| Runtime.UnifiedRuntime.DriveToDesired | crates/wroid-inject/src/game_session.rs:2087-2172 | the three loops together: shrink to old and wanted, then grow to wanted, and the contacts afterwards are exactly the unmanaged ones and the wanted ones; it sends on managed contacts only and fails, the device apart, exactly if the steps run out of slots |
| Runtime.UnifiedRuntime.ReconcileContinuous | crates/wroid-inject/src/game_session.rs:1953-2174 | a successful pass settles every control with bookkeeping and engine in agreement; for a plan made from a document the screen then shows what the history of inputs asks for: a hold is down at its point exactly if its key or button is held and answers, and a stick is at the target of the directions whose keys are held and answer; a settled runtime is left untouched with no frame sent; ownership first only shrinks, then only grows; apart from the device it fails exactly if its steps run out of slots; only the device fails it if there are no opposing keys and the end fits, or if there is a slot for every contact |
| Runtime.UnifiedRuntime.DriveAims | crates/wroid-inject/src/game_session.rs:1888-1903 | a round over the aim controllers does to each what its command says, whatever the others do, and touches only aim contacts; apart from the device it fails exactly if the steps of the controllers, one after the other, run out of slots |
| Runtime.UnifiedRuntime.DispatchPress | crates/wroid-inject/src/game_session.rs:2215-2360 | a press sends exactly the frames of the available taps and toggle joysticks, in plan order, and leaves everything settled; for a plan made from a document every tap bound to the input by key or button that answers contributes one down and one up, any other none, and a direction of a toggle joystick changes exactly if its own key was pressed and answers; apart from the device it fails exactly if these run out of slots |
| Asked.FiredRead | crates/wroid-inject/src/game_session.rs:2332-2360 | what a press sends on the contact of a tap: one down and one up at its point exactly if the tap is bound to the input and answers, and nothing otherwise |
| Asked.PressRead | crates/wroid-inject/src/game_session.rs:2259-2316 | what a press makes of a toggle joystick: a direction flips exactly if its own key was pressed and answers |
| Asked.TwoPressesRestore | crates/wroid-inject/src/game_session.rs:2259-2316 | two presses of a key that answers restore every direction, and one press does not |
| Runtime.UnifiedRuntime.HandleKeyboard | crates/wroid-inject/src/game_session.rs:1846-1907 | repeats and unknown keys do nothing; every other event is recorded and, on success, leaves the runtime settled and the screen as the history asks; what is sent is first the pass on its contacts, then the toggles of exactly the aims whose toggle key it is, then exactly the frames of the available taps and toggle joysticks, these two only for a press of a key that activates no layer; apart from the device it fails exactly if the pass is crowded or, after it, the toggles and what is fired run out of slots |
| Runtime.UnifiedRuntime.HandleMouse | crates/wroid-inject/src/game_session.rs:1909-1951 | motion moves every controller where it moves it alone and sends on aim contacts only, and fails, the device apart, exactly if the controllers run out of slots; a button event is recorded, reconciled and on a press dispatched, and the right button raises and lowers the sights; what is sent is the pass and then exactly the frames of the taps that answer, and it fails, the device apart, exactly if the pass is crowded or the device is full after it and some tap fires; everything else does nothing |
| Ownership.ButtonFires | crates/wroid-inject/src/game_session.rs:2330-2360 | what a mouse button fires leaves the number of contacts alone, and runs out of slots exactly if some tap fires on a full device |
| Runtime.UnifiedRuntime.ReleaseMouseButtons | crates/wroid-inject/src/game_session.rs:1767-1778 | no button is held afterwards, the history says so, the sights are down, and everything is settled, so no binding fired by a button stays down; it fails only as a pass does |
| Runtime.UnifiedRuntime.RestoreAim | crates/wroid-inject/src/game_session.rs:1738-1747 | afterwards a controller aims exactly if it did, has no toggle key, or reactivation was asked for, and one switched on starts at its origin; apart from the device it fails exactly if those switched on run out of slots |
| Runtime.UnifiedRuntime.DisableAim | crates/wroid-inject/src/game_session.rs:1750-1760 | nobody aims afterwards; only the device can prevent it |
| Runtime.UnifiedRuntime.CursorDown | crates/wroid-inject/src/game_session.rs:1823-1830 | the cursor contact is down at the position, every other contact and all bookkeeping as before; apart from the device it fails exactly if the cursor is up and no slot is free |
| Runtime.UnifiedRuntime.CursorUp | crates/wroid-inject/src/game_session.rs:1839-1844 | the cursor contact is up; only the device can refuse |
| Runtime.UnifiedRuntime.Tick | crates/wroid-inject/src/game_session.rs:2362-2388 | ends exactly the pauses that are over, each where the motion made up in it leads, repeats the positions that are due and sends every stick that is due and down once more where it is; changes no contact but those of aim, and who is aiming not at all; apart from the device it fails exactly if the pauses that are over run out of slots |
| Runtime.UnifiedRuntime.ReaffirmJoysticks | crates/wroid-inject/src/game_session.rs:2362-2388 | every stick that is due and down is sent once more where it is, and nothing else is sent |
| Runtime.UnifiedRuntime.CancelAims | crates/wroid-inject/src/game_session.rs:2393-2404 | every controller is idle afterwards even if the device fails, and an error is reported only if it did |
| Runtime.UnifiedRuntime.Suspend | crates/wroid-inject/src/game_session.rs:2390-2428 | from any state: inputs forgotten, controllers idle, ownership cleared even on error; on success nothing is on the screen, and failure means the device refused a write |
| Runtime.NoStuckTouch | crates/wroid-inject/src/game_session.rs:1846-1951 | after any successful event, with nothing held, no hold binding and no hold joystick has a contact down |
| Runtime.SameHeldSameTouches | crates/wroid-inject/src/game_session.rs:1846-1951 | with hold layers only, two runtimes in which the same inputs are held show the same hold contacts and joystick positions, however they got there |
| CaptureLoop.EventLoop.constructor | crates/wroid-inject/src/game_session.rs:1144-1171 | the states a session starts from are safe, and in the right mode when they need no mode change |
| CaptureScript.ProtectedFocus | crates/wroid-inject/src/game_session.rs:1196-1272 | while protection lasts the relay was never lost, and the focus is what the last change said, or what held from the start |
| CaptureScript.SpokenIsRemembered | crates/wroid-inject/src/game_session.rs:1196-1292 | whether the relay ever spoke is remembered exactly |
| CaptureScript.ProtectionEnds | crates/wroid-inject/src/game_session.rs:1196-1292 | protection ends only where the relay is lost, or where it never spoke, nothing is captured and the grace period is over; from then on input is released by hand |
| CaptureScript.CtrlIsHeld | crates/wroid-inject/src/game_session.rs:1351-1359 | Ctrl counts as pressed exactly if it was heard and not forgotten since: heard where input is captured, forgotten where it is let go of there, with F12, and with every focus event under protection |
| CaptureScript.F12Alternates | crates/wroid-inject/src/game_session.rs:1309-1347 | where focus allows it, capture alternates with the presses of F12 |
| CaptureScript.HotkeyEnds | crates/wroid-inject/src/game_session.rs:1351-1367 | Esc or C pressed where input is captured and Ctrl is held ends the session, if no key before it did |
| CaptureScript.EndedBy | crates/wroid-inject/src/game_session.rs:1351-1367 | whatever key of a batch ends the session is Esc or C, pressed where input is captured and Ctrl held, and it names the reason |
| CaptureScript.CapturedIsHeard | crates/wroid-inject/src/game_session.rs:1295-1367 | while captured, a batch without F12 leaves exactly its presses and releases in the history |
| CaptureLoop.EventLoop.ApplyInputMode | crates/wroid-inject/src/game_session.rs:1066-1103 | entering aim mode, each controller aims exactly if it did, has no toggle key or is reactivated; entering UI mode leaves nobody aiming and no button held; if nobody refuses anything it goes through |
| CaptureLoop.EventLoop.ReleaseInputToOs | crates/wroid-inject/src/game_session.rs:1111-1132 | on success the host has its devices back and the runtime is at rest with nothing on the screen |
| CaptureLoop.EventLoop.OnFocus | crates/wroid-inject/src/game_session.rs:1196-1272 | what was seen is updated as the event says; under protection input is captured exactly while focused and not manually released, and losing what was captured suspends the runtime; losing the relay ends protection for good; without protection a focus event reaches nothing; if nobody refuses anything it goes through |
| CaptureLoop.EventLoop.CheckSilence | crates/wroid-inject/src/game_session.rs:1278-1292 | a relay silent past the grace period leads to manual capture, never to a dead session; anything else changes nothing |
| CaptureLoop.EventLoop.OnF12 | crates/wroid-inject/src/game_session.rs:1309-1347 | F12 releases what is captured and recaptures what was manually released if focused or unprotected, and otherwise does nothing; Ctrl counts as released afterwards |
| CaptureLoop.EventLoop.OnKey | crates/wroid-inject/src/game_session.rs:1301-1367 | while released only F12 gets through; while captured every key does and leaves its edge in the history; Ctrl counts as pressed from its press to its release, and the session ends exactly on Esc or C pressed meanwhile |
| CaptureLoop.EventLoop.SyncMode | crates/wroid-inject/src/game_session.rs:1372-1391 | the mode follows who is aiming |
| CaptureLoop.EventLoop.OnKeyboard | crates/wroid-inject/src/game_session.rs:1295-1391 | after any batch, with F12 anywhere in it, what was seen and what is in the history are what the script of keys says, and mode and aim state agree; the session ends exactly as the script says; a released session without F12 is untouched |
| CaptureLoop.EventLoop.OnUiMouse | crates/wroid-inject/src/game_session.rs:1415-1455 | in UI mode the left button is the cursor contact and motion moves it; no other button reaches the game |
| CaptureLoop.EventLoop.OnMouse | crates/wroid-inject/src/game_session.rs:1392-1464 | a released session ignores the mouse; otherwise every event is handled in its order, in aim mode by the controllers, the sights and the history of buttons, in UI mode by the cursor contact |
| CaptureLoop.EventLoop.OnCursor | crates/wroid-inject/src/game_session.rs:1465-1521 | overlay events are touches in UI mode and nothing otherwise |
| CaptureLoop.EventLoop.OnTick | crates/wroid-inject/src/game_session.rs:1535-1537 | a released session does not tick; a captured one ends the pauses that are over and sends every stick that is due again |
| CaptureLoop.EventLoop.RunTurn | crates/wroid-inject/src/game_session.rs:1190-1541 | what was seen of focus, F12 and Ctrl is what the turn says, and so are whether the session ends, by how much the history of inputs grows, what each mouse or cursor event does in its order, and what the tick does; every invariant of the loop head is kept; if nobody refuses anything nothing fails |
| CaptureLoop.EventLoop.Run | crates/wroid-inject/src/game_session.rs:1134-1542 | every loop head of every run is what the script of turns so far says: input is captured exactly if it was not released by hand and, under protection, the window had the focus by the last change; released input touches nothing; protection once lost stays lost; from head to head the history grows by what the turn says; and the session ends exactly as the script says, unless something failed, which takes somebody who refuses, a host that fails, or too few slots |
| CaptureLoop.HeadFollows | crates/wroid-inject/src/game_session.rs:1190-1541 | at every loop head, whatever came before it, the screen shows what the history of inputs asks for |
| CaptureLoop.HeadMode | crates/wroid-inject/src/game_session.rs:1165-1171 | captured input is in UI mode exactly if there is an overlay, some aim has a toggle key, and no controller aims or waits |
| CaptureLoop.ReleasedShowsNothing | crates/wroid-inject/src/game_session.rs:1111-1132 | while input is released a reader of the device node sees no contact and BTN_TOUCH 0 |
| CaptureLoop.PlaySession | crates/wroid-inject/src/game_session.rs:285-416 | from a fresh device through any script to the final stop: the verdict is what the script says unless something failed; the stop leaves the device showing no touch or fails because the device refused a write; there is no stop only if a session that begins focused did not start; and where nobody refuses anything, the host does not fail and there are slots for all, nothing fails at all |
| CaptureLoop.PlayProfile | crates/wroid-inject/src/game_session.rs:322-416 | what plan building guarantees is all a session needs: a session is played exactly from a document that is valid and can be materialised, it ends as the script says unless something failed, and ends clean unless the device refused a write during the stop or the session did not start |
| AimMotion.StepConserves | crates/wroid-runtime/src/mouse_aim.rs:97-105 | a scaled step and its remainder account for all of the motion exactly when neither 64-bit operation saturates; the remainder stays below one pixel |
| AimMotion.FitsWithRoom | crates/wroid-runtime/src/mouse_aim.rs:97-105 | whatever remainder is carried, an event saturates nothing exactly if the product of motion and numerator leaves room for it |
| AimMotion.OrdinaryMotionFits | crates/wroid-runtime/src/mouse_aim.rs:97-105 | without the sight multiplier, events below 2^30 counts never saturate |
| AimMotion.SightedMotionFits | crates/wroid-runtime/src/mouse_aim.rs:584-594 | with it, ratios in thousandths and a multiplier of at most one, the scale is the exact product and events below 2^20 counts never saturate |
| AimMotion.ScaleAccumulator.Scale | crates/wroid-runtime/src/mouse_aim.rs:81-105 | both axes step independently, each with its own remainder; pixels and remainders account for all of the motion exactly if nothing saturates |
| AimMotion.TravelConserves | crates/wroid-runtime/src/mouse_aim.rs:66-105 | over any run, total travel and remainder equal the scaled total motion: nothing is lost, however slow |
| AimMotion.SteadyTravel | crates/wroid-runtime/src/mouse_aim.rs:66-105 | motion in one direction travels as far as if it had come in one event |
| AimMotion.ClampedMove | crates/wroid-runtime/src/mouse_aim.rs:658-676 | offsetting in 64 bits, clamping to 32 and then to the region is moving each axis as far as the region goes |
| AimMotion.ThresholdIsACircle | crates/wroid-runtime/src/mouse_aim.rs:596-606 | on surfaces the device can have the saturations do not show: the threshold is a circle around the origin |
| Profiles.ValidateLayers | crates/wroid-core/src/profile_v2.rs:68-84 | no complaint exactly for layer names that are non-empty, distinct and not the reserved one; each complaint is made exactly if some layer earns it |
| Profiles.ValidateActivations | crates/wroid-core/src/profile_v2.rs:86-101 | no complaint exactly for known and distinct activation keys; each complaint is made exactly if some layer earns it |
| Profiles.ValidateBase | crates/wroid-core/src/profile_v2.rs:103-113 | no complaint exactly if unmodified base bindings leave activation keys alone |
| Profiles.ValidateBinding | crates/wroid-core/src/profile_v2.rs:424-634 | each complaint is made exactly if the binding earns it, by a table of which names are known, which input is for which action, and which modifier is for which input |
| Profiles.CoversMeans | crates/wroid-core/src/profile_v2.rs:410-422 | the scopes of a binding are its layer, or base, with its modifier and each of its keys or its button |
| Profiles.ClaimScopes | crates/wroid-core/src/profile_v2.rs:169-202 | one binding's turn: its inputs are claimed once, and it is clean exactly if none was claimed in its layer and modifier before and none is its layer's activation key |
| Profiles.ValidateScopes | crates/wroid-core/src/profile_v2.rs:115-202 | no complaint exactly if within a layer and modifier each input drives one binding |
| Profiles.Validate | crates/wroid-core/src/profile_v2.rs:52-209 | no error exactly for a valid document, and each kind of error exactly if the document earns it |
| Profiles.ScopesCarryOver | crates/wroid-runtime/src/profile_controls.rs:287-350 | distinct scopes of the document are distinct scopes of the plan |
| Profiles.MaterializeControls | crates/wroid-runtime/src/profile_controls.rs:320-340 | the controls say what the bindings say, numbered in order, exactly if every binding can be materialised, and else the first that cannot is named; aim regions lie on the surface and aim starts at their centre, and the contact ids of joysticks and aim are all different exactly if they number fewer than 65536 |
| Profiles.MaterialisedSays | crates/wroid-runtime/src/profile_controls.rs:490-585 | a control made from a valid binding has its keys or its button in the same places, its modifier, its point, targets, region and ratios; aim starts in the middle of its region, and Ctrl modifies neither Esc nor C |
| Profiles.LayerTable | crates/wroid-inject/src/game_session.rs:1665-1673 | each activation key switches its own layer in its mode, and no other key switches any |
| Profiles.BuildPlan | crates/wroid-runtime/src/profile_controls.rs:287-350 | a document becomes a plan exactly if it is valid and can be materialised, and is otherwise told the first reason; the plan says what the document says, has unique scopes and computed suppression; it is one the runtime can be built from, with all ids different, exactly if the contacts it needs have ids of 16 bits |
| Framing.SocketReader.ReadFrameUntil | crates/wroid-inject/src/bridge_broker.rs:461-499 | the result depends on the bytes only, not on how they were split into reads, and what follows the frame is left in place; only a deadline that passes, after exactly as many reads, or a socket that is not reliable can interfere |
| Framing.SocketWriter.WriteFrame | crates/wroid-inject/src/bridge_broker.rs:436-447 | writes the payload and a newline, nothing if that exceeds 4096 bytes, or a front of it if a socket that is not reliable fails |
| Framing.WrittenIsRead | crates/wroid-inject/src/bridge_broker.rs:436-499 | reading the concatenation of written frames returns each in order and then a clean end |
| Framing.ReadWasWritten | crates/wroid-inject/src/bridge_broker.rs:461-499 | a stream that reads cleanly is the concatenation of the frames read: no byte lost or made up |
| Framing.CutOffIsNoticed | crates/wroid-inject/src/bridge_broker.rs:486-494 | a peer that stops inside a frame yields the frames before it and then an error |
| Framing.FailedWriteIsNoticed | crates/wroid-inject/src/bridge_broker.rs:436-499 | whatever front of a frame a failing write delivered, the peer reads the frames before it and the frame itself only if it is whole, else an error or, if nothing was sent, a clean end |
| Bridge.PrivilegedBridgeHelper.Finish | crates/wroid-inject/src/privileged_bridge.rs:975-1001 | however it goes, the pipe is closed and the child waited for, once unless the wait itself fails; the cleanup line is written only when Waydroid was stopped; a willing child makes it succeed |
| Bridge.BridgeBroker.Serve | crates/wroid-inject/src/bridge_broker.rs:283-368 | case by case what is asked of the helper and which answer the client gets, with the code of every refusal; a request is answered as asked only in its state and version; anything else ends the session and drops an unfinished helper; only a helper that is not willing or does not work is reported as failing |
| Bridge.BridgeBroker.ServeAll | crates/wroid-inject/src/bridge_broker.rs:283-368 | against any client at all every delivery is answered as its case says until one ends the session; the helper sees open, verify, then finish or drop, and an opened helper is consumed exactly once and its child waited for |
| Bridge.BridgeBrokerClient.Complete | crates/wroid-inject/src/bridge_broker.rs:210-240 | the client advances exactly on the expected reply in its protocol version; a refusal is passed on with its code, and any other reply is unexpected |
| Bridge.ServeKeepsStep | crates/wroid-inject/src/bridge_broker.rs:174-240 | one turn of the server keeps it level with the client, or one step ahead with the reply on its way |
| Bridge.BridgeLink.Ask | crates/wroid-inject/src/bridge_broker.rs:174-222 | a request goes out exactly if it may be sent now and can be written; a finish that is refused takes the client with it |
| Bridge.BridgeLink.Hear | crates/wroid-inject/src/bridge_broker.rs:210-240 | exactly what hearing a reply, a stale error or a closed socket does to the client; the two stay in step until the first transport error |
| Bridge.BridgeLink.ServeNext | crates/wroid-inject/src/bridge_broker.rs:283-368 | exactly what serving a request, an expired deadline or a hang-up does; the two stay in step until the first transport error |
| Bridge.BridgeLink.Run | crates/wroid-inject/src/bridge_broker.rs:174-368 | every interleaving of client, server, lost replies and hang-ups does move by move what the moves say, and keeps helper trace and states as required |
| Bridge.UseBridge | crates/wroid-inject/src/bridge_broker.rs:174-240 | if nothing is lost on the way and the helper works, open, verify and finish go through, the client learns it, and the helper was told exactly what it should be |
| Bridge.ServeHelperProtocol | crates/wroid-inject/src/privileged_bridge.rs:373-402 | the helper's loop computes the protocol's verdict |
| Bridge.ProtocolMeans | crates/wroid-inject/src/privileged_bridge.rs:373-402 | every answer of the helper spelled out: at most one verification, then cleanup or the end, and which fault for which line |
| Bridge.ProtocolEndsInCleanup | crates/wroid-inject/src/privileged_bridge.rs:373-402 | the verdict is a clean end exactly for cleanup after at most one verification that worked |
| Bridge.RunHelper | crates/wroid-inject/src/privileged_bridge.rs:291-316 | after the ready line the container is force-stopped before the bridge is removed and access restored, unless the session ended cleanly; both cleanups are attempted whatever failed; it succeeds exactly if the protocol, the stop and both cleanups did |
| Bridge.ForcedUnlessFinished | crates/wroid-inject/src/privileged_bridge.rs:294-316 | end to end: the forced stop is forgone only if a client's finish said Waydroid had stopped after a verification that worked, and is forgone whenever such a finish went through; that the verification worked follows from the server's trace |
| Bridge.ServeAndHelp | crates/wroid-inject/src/privileged_bridge.rs:291-316 | end to end, from the script of requests a client makes to what the helper does: the container is force-stopped, before the bridge is removed, unless a finish that said Waydroid had stopped went through |
| Bridge.FinishWasDone | crates/wroid-inject/src/bridge_broker.rs:200-208 | a finish that came back as done was carried out on the helper with the flag the client passed |
| Archive.HeaderReadsBack | crates/wroid-android/src/lib.rs:354-365 | the offsets the parser reads are the fields of section 4.3.12 |
| Archive.LittleEndian | crates/wroid-android/src/lib.rs:416-433 | numbers are read with the lowest byte first, and the signatures are the letters P and K followed by 1 and 2, or 5 and 6 |
| Archive.RecordMeans | crates/wroid-android/src/lib.rs:354-404 | in the fields of section 4.3.12: exactly which records are accepted, and what is kept of them: the name, bit 0 of the flags as encrypted, and a final slash as directory |
| Archive.FaultMeans | crates/wroid-android/src/lib.rs:354-404 | in the fields of section 4.3.12: exactly which fault each refused record is given, in the parser's order |
| Archive.HeaderOrNot | crates/wroid-android/src/lib.rs:343-353 | fewer than 46 bytes are cut short, and others are an unexpected record exactly if they do not begin with the signature |
| Archive.FirstFaultDecides | crates/wroid-android/src/lib.rs:343-414 | after any well-formed records the first one that is not gives its fault, and one beyond the limit ends the reading |
| Archive.ParseInvertsEncode | crates/wroid-android/src/lib.rs:343-414 | parsing the concatenation of well-formed records returns them in order |
| Archive.AcceptedIffEncoded | crates/wroid-android/src/lib.rs:343-414 | parsing succeeds with n entries exactly if the bytes are n well-formed records, n at most 100000 |
| Archive.EncodeIsInjective | crates/wroid-android/src/lib.rs:343-414 | no byte string encodes two directories |
| Archive.ReadEntry | crates/wroid-android/src/lib.rs:351-404 | one record is read within bounds, with the checks in the parser's order |
| Archive.ParseCentralEntries | crates/wroid-android/src/lib.rs:343-414 | the loop computes the recursive reading, errors included |
| Archive.FindEocd | crates/wroid-android/src/lib.rs:435-446 | finds the last place where an end record fits the end of the bytes, if there is one |
| Archive.EocdMeans | crates/wroid-android/src/lib.rs:435-446 | in bytes: an end record is the letters P and K, 5 and 6, and a comment that ends the file |
| Archive.TailSearchSuffices | crates/wroid-android/src/lib.rs:295-303 | searching the last 22 + 65535 bytes finds every end record of the file |
| Archive.ReadCentralDirectory | crates/wroid-android/src/lib.rs:291-341 | reads the directory the last end record locates, and refuses any other file with exactly the fault of its end record |
| Archive.ArchiveReadsBack | crates/wroid-android/src/lib.rs:291-414 | a whole archive reads back as its records, unless its comment itself ends in an end record |
| Scaling.ScaleAxisMonotone | crates/wroid-core/src/lib.rs:314-322 | scaling keeps order |
| Scaling.ScaleAxisError | crates/wroid-core/src/lib.rs:314-322 | off by at most half a pixel, or by under one pixel where clamped |
| Scaling.UpThenDown | crates/wroid-core/src/lib.rs:314-322 | scaling up and back down is exact |
| Scaling.RadiusLikeAxis | crates/wroid-core/src/lib.rs:324-345 | where both axes scale alike a radius scales like a length on one of them |
| Scaling.ScaleRadiusError | crates/wroid-core/src/lib.rs:324-345 | a radius scales by the average of the two scales, off by at most half a pixel unless clamped |
| Scaling.RadiusUpThenDown | crates/wroid-core/src/lib.rs:324-345 | then a radius also survives the way up and back, unless it leaves 32 bits |
| Scaling.AlikeRadiusReturnsIff | crates/wroid-core/src/lib.rs:324-345 | where both axes scale alike, shrinking or not, a radius comes back exactly if some radius of the other resolution scales to it |
| Scaling.ClampedRadiusReturnsIff | crates/wroid-core/src/lib.rs:324-345 | the same with the clamps of 32 bits, for every radius that is not itself a clamp |
| Scaling.RadiusGrows | crates/wroid-core/src/lib.rs:324-345 | where the axes scale differently every radius from an explicit size on comes back larger |
| Scaling.ClampedRadiusGrows | crates/wroid-core/src/lib.rs:324-345 | the same with the clamps of 32 bits |
| Scaling.RadiiReturnIff | crates/wroid-core/src/lib.rs:324-345 | before clamping, all radii return exactly if the axes scale alike and do not shrink |
| Scaling.RadiusNeedNotReturn | crates/wroid-core/src/lib.rs:324-345 | below that size either may happen: 1 and 50 return over slightly different scales, 100 returns as 113 over scales that differ by a factor of two |
| Scaling.ScaleProfile | crates/wroid-core/src/lib.rs:304-312 | rewrites every binding's action and the resolution, and nothing else |
| Scaling.OnlyPlacesScale | crates/wroid-core/src/lib.rs:261-302 | points scale axis by axis and radii on their own; durations, and the actions without a place, stay |
| Scaling.Validate | crates/wroid-core/src/lib.rs:33-76 | collects the errors in order; there are none exactly for a valid profile, and each is reported exactly if the profile earns it, by one line per complaint |
| Scaling.ScalingPreservesValidity | crates/wroid-core/src/lib.rs:268-345 | a valid profile scaled to any non-zero resolution is valid again |
| Scaling.ProfileUpThenDown | crates/wroid-core/src/lib.rs:261-312 | every point of a valid profile survives scaling up and back |
| Scaling.SameResolutionIsIdentity | crates/wroid-core/src/lib.rs:261-345 | scaling a valid profile to its own resolution changes nothing, radii included |
| Sessions.ManagedProcesses.Launch | crates/wroid-daemon/src/process.rs:85-162 | one child at a time, and exactly when one is started; a refused launch leaves the table alone |
| Sessions.ManagedProcesses.Reap | crates/wroid-daemon/src/process.rs:183-206 | one report with verdict and detail for each child that exited, none for others; a failing wait changes nothing |
| Sessions.DaemonServer.Launch | crates/wroid-daemon/src/ipc.rs:573-625 | a launch fails if a child exists; a launch that fails after preparing leaves the session failed, and marking it never fails; each refusal by its reason |
| Sessions.DaemonServer.StopOne | crates/wroid-daemon/src/ipc.rs:653-683 | a session with a child is only asked to stop, once, one without is stopped on the spot |
| Sessions.DaemonServer.Dispatch | crates/wroid-daemon/src/ipc.rs:534-692 | for every kind of request, what it does to the two tables and what it is told, with every refusal; the tables stay in agreement |
| Sessions.DaemonServer.ReapManaged | crates/wroid-daemon/src/ipc.rs:393-404 | marking exited sessions never fails; they end stopped if the child ended with 0, or with SIGTERM after being asked to, and the broker cleaned up, and failed otherwise; every other session is as it was |
| Sessions.DaemonServer.Serve | crates/wroid-daemon/src/ipc.rs:326-349 | over any script of reaps and requests every round does exactly that, the children are exactly the sessions with a process, those are running or stopping, there is at most one, and no session is forgotten or goes back |
| Sessions.OnlyForward | crates/wroid-daemon/src/ipc.rs:326-349 | over any such run the state of a session only moves forward: what has ended stays ended, and what it was to launch stays |
| Sessions.ValidIdMeans | crates/wroid-daemon/src/ipc.rs:694-707 | a session id is valid exactly if it has 1 to 128 characters, each a letter, digit, dash, underscore or dot by its code |
| BridgeConfig.AddedIsThere | crates/wroid-inject/src/waydroid_bridge.rs:484-494 | the include is there after adding it, to any text |
| BridgeConfig.RemovedIsGone | crates/wroid-inject/src/waydroid_bridge.rs:496-506 | nothing answers to the include after removing it, from any text |
| BridgeConfig.RemoveElsewhere | crates/wroid-inject/src/waydroid_bridge.rs:496-506 | from a text without the include nothing is removed; its lines are only ended by bare newlines |
| BridgeConfig.EndedIsShorter | crates/wroid-inject/src/waydroid_bridge.rs:496-506 | ending every line with a bare newline never lengthens a text that ends in one, and leaves it as it is exactly if no carriage return stands before a newline |
| BridgeConfig.RemoveAfterAdd | crates/wroid-inject/src/waydroid_bridge.rs:484-506 | removing after adding, with any unrelated text appended in between, leaves the old text ended by one newline and the appended one, each line ended by a bare newline |
| BridgeConfig.RemoveUndoesAdd | crates/wroid-inject/src/waydroid_bridge.rs:484-506 | removing undoes adding exactly for texts that end in one newline and have no carriage return before a newline |
| BridgeConfig.Install | crates/wroid-inject/src/waydroid_bridge.rs:316-373 | at every write the include implies the managed file, also when the installation fails; it fails only if something was refused, and if nothing else was the disk is as it was |
| BridgeConfig.Restore | crates/wroid-inject/src/waydroid_bridge.rs:381-400 | consistent at every write as long as the main configuration can be written, and exactly when the include may be left dangling |
| BridgeConfig.Cleanup | crates/wroid-inject/src/waydroid_bridge.rs:375-408 | with the second attempt on drop: it succeeds exactly if nothing was refused, a single refusal is made up for, and the include dangles in the end only if both attempts at the main configuration failed |
| BridgeConfig.RemoveBridge | crates/wroid-inject/src/waydroid_bridge.rs:415-429 | stops at the first error, so the include never outlives its file; it fails exactly if something was refused |
| BridgeConfig.InstallThenCleanup | crates/wroid-inject/src/waydroid_bridge.rs:316-400 | over a whole session the managed file comes back, and the main configuration exactly if no include was added or removing undoes adding; it fails exactly if something was refused, and a single refusal leaves the managed file as it was |

## Left out

- AimControl.TickAim: does not model clocks; whether a pause is over or a position due to be repeated comes in with the call.
- Runtime.UnifiedRuntime.Tick: likewise takes which joysticks and controllers are due from the call.
- ContactDrivers.ApplyJoystick: takes the targets as given, because they come from floating-point geometry.
- CaptureLoop.PlaySession: asks that contact ids differ, since nothing is claimed of a runtime in which two controls share a contact.
- CaptureLoop.PlayProfile: asks that the contacts a document needs have ids of 16 bits, for the same reason.
- Profiles.BuildPlan: takes the points of taps, holds and joysticks as given and inside the surface, because they come from floating-point geometry.
- Profiles.MaterializeControls: takes the target points of joysticks, the pixels of aim regions and whether a sensitivity fits as outcomes, because they come from floating-point geometry.
- Profiles.Validate: states when a document is accepted and which kinds of complaint are made, not their wording, number or order; number ranges of geometry are one flag per binding.
- TypeB.RunRefines: asks that frames be orderly (within a frame no contact is lifted after its own down or moved after its own lift); the engine, which refuses repeated contacts, sends no others, and `DisorderlyFrameDisagrees` shows the condition matters.
- CaptureLoop.EventLoop.ApplyInputMode: does not model the cursor sprite, the best-effort warp of the host cursor, or lifting the cursor contact, which the code does not do on a switch to aim mode.
- CaptureLoop.EventLoop.Run: takes virtual cursor positions from the events, because they are floating point; latency samples and tracing are left out.
- Framing.SocketReader.ReadFrameUntil: says nothing about what is left after a malformed frame, because the connection is given up; UTF-8 and JSON are outside.
- Bridge.BridgeLink.Run: makes no claim about client and server after the first transport error, when a stale reply may answer a later request; the helper's trace is still guaranteed.
- Bridge.BridgeBroker.Serve: takes the acceptability of the event node path as given.
- Archive.ParseCentralEntries: takes a predicate for names that are UTF-8 without control characters.
- Scaling.RadiiReturnIff: speaks of radii before the clamps of 32 bits; with them a radius that scales beyond 32 bits is lost, which `ClampedRadiusReturnsIff` and `ClampedRadiusGrows` take into account.
- Scaling.Validate: takes trimming of white space as a parameter.
- Sessions.ManagedProcesses.Launch: reduces path, credential and executable checks to one outcome.
- The first-generation session operations of the daemon, which no request reaches.
- Device nodes, evdev and uinput calls, signals, locks, ownership and permission checks.
- The Wayland overlay's drawing, the graphical programs and the web assets.
- ADB, Waydroid and LXC command wrappers and the parsing of their output.
- The older keyboard-only and mouse-only sessions, which the unified runtime replaces.
- ABI and package-format detection, which are single decisions over the entries `Archive` returns.
