// The injector that owns the uinput device and the engine in front of it, as the source has them:
// objects whose methods update their fields (crates/wroid-inject/src/{injector,translate,transition}.rs,
// crates/wroid-runtime/src/lib.rs).

module Injector {
  import opened Wrappers
  import opened Touch
  import opened TypeB

  // The device node. Whether a write succeeds is up to the kernel, and a reliable device takes every write;
  // a refused batch is not delivered.
  class EventSink {
    const reliable: bool
    var batches: seq<seq<LinuxEvent>>
    var failures: nat

    constructor (reliable: bool)
      ensures this.reliable == reliable && batches == [] && failures == 0
    {
      this.reliable := reliable;
      batches, failures := [], 0;
    }

    method Emit(batch: seq<LinuxEvent>) returns (ok: bool)
      modifies this
      ensures ok ==> batches == old(batches) + [batch] && failures == old(failures)
      ensures !ok ==> batches == old(batches) && failures == old(failures) + 1
      ensures reliable ==> ok
    {
      ok := *;
      ok := ok || reliable;
      if ok {
        batches := batches + [batch];
      } else {
        failures := failures + 1;
      }
    }
  }

  class UinputTouchInjector {
    const config: Config
    const sink: EventSink
    var state: SlotState
    var scratch: seq<LinuxEvent>

    ghost predicate Valid()
      reads this
    {
      config.Valid() && state.Valid(config)
    }

    // Replaying everything ever emitted gives exactly the slot table.
    ghost predicate InSync()
      requires Valid()
      reads this, sink
    {
      Agrees(state, Replay(config, sink.batches))
    }

    constructor (config: Config, sink: EventSink)
      requires config.Valid() && sink.batches == []
      ensures this.config == config && this.sink == sink
      ensures Valid() && InSync() && state.View() == map[]
    {
      this.config := config;
      this.sink := sink;
      state := NewSlotState(config);
      scratch := [];
      new;
      NewStateValid(config);
      CountersAgree(config, state);
    }

    // next_state: copies the table, folds the events, stops at the first error.
    method ComputeNextState(frame: Frame) returns (r: Result<SlotState, FrameError>)
      requires Valid()
      ensures r == NextState(config, state, frame)
      ensures match r
              case Err(error) => Play(config, state.View(), frame) == Err(error)
              case Ok(next) => next.Valid(config) && Play(config, state.View(), frame) == Ok(next.View())
    {
      var next := state;
      NextStateRefines(config, state, frame);
      var i := 0;
      while i < |frame|
        invariant 0 <= i <= |frame|
        invariant next.WellFormed() && next.slotCount == state.slotCount
        invariant NextState(config, next, frame[i..]) == NextState(config, state, frame)
      {
        var event := frame[i];
        assert frame[i..][1..] == frame[i + 1..];
        match ApplyEvent(config, next, event)
        case Err(error) => return Err(error);
        case Ok(after) => next := after;
        i := i + 1;
      }
      return Ok(next);
    }

    method PushMtPosition(position: Point)
      modifies this`scratch
      ensures scratch == old(scratch) + PositionEvents(position)
    {
      scratch := scratch + [LinuxEvent(MtPositionX, AsI32(position.x))];
      scratch := scratch + [LinuxEvent(MtPositionY, AsI32(position.y))];
    }

    method PushEvent(slot: nat, event: TouchEvent)
      modifies this`scratch
      ensures scratch == old(scratch) + EventBatch(slot, event)
    {
      scratch := scratch + [LinuxEvent(MtSlot, slot)];
      match event.phase
      case Down =>
        scratch := scratch + [LinuxEvent(MtTrackingId, event.contact)];
        PushMtPosition(event.position);
      case Move =>
        PushMtPosition(event.position);
      case _ =>
        scratch := scratch + [LinuxEvent(MtTrackingId, -1)];
    }

    method PushEvents(next: SlotState, frame: Frame) returns (r: Result<(), FrameError>)
      requires Valid() && next.WellFormed()
      modifies this`scratch
      ensures r.Err? ==> Translate(state, next, frame) == Err(r.error)
      ensures r.Ok? ==> Prepend(old(scratch), Translate(state, next, frame)) == Ok(scratch)
    {
      PrependNothing(Translate(state, next, frame));
      var i := 0;
      while i < |frame|
        invariant 0 <= i <= |frame|
        invariant Prepend(old(scratch), Translate(state, next, frame))
                  == Prepend(scratch, Translate(state, next, frame[i..]))
        invariant Translate(state, next, frame[i..]).Err? ==>
                  Translate(state, next, frame) == Translate(state, next, frame[i..])
      {
        var event := frame[i];
        assert frame[i..][0] == event && frame[i..][1..] == frame[i + 1..];
        var slot := TranslatedSlot(state, next, event);
        if slot.None? {
          return Err(ContactNotActive(event.contact));
        }
        PrependTwice(scratch, EventBatch(slot.value, event), Translate(state, next, frame[i + 1..]));
        PushEvent(slot.value, event);
        i := i + 1;
      }
      assert Translate(state, next, frame[i..]) == Ok([]);
      assert scratch + [] == scratch;
      return Ok(());
    }

    method PushPrimary(next: SlotState)
      requires next.WellFormed()
      modifies this`scratch
      ensures scratch == old(scratch) + PrimaryTrailer(next)
    {
      var primary := next.PrimaryPosition();
      if primary.Some? {
        scratch := scratch + [LinuxEvent(AbsX, AsI32(primary.value.x))];
        scratch := scratch + [LinuxEvent(AbsY, AsI32(primary.value.y))];
      }
    }

    // The batch for an accepted frame, built in the scratch buffer.
    method BuildBatch(next: SlotState, frame: Frame) returns (r: Result<(), FrameError>)
      requires Valid() && next.WellFormed()
      modifies this`scratch
      ensures r.Err? ==> Translate(state, next, frame) == Err(r.error)
      ensures r.Ok? ==> Translate(state, next, frame).Ok?
      ensures r.Ok? ==>
                scratch == TouchHeader(state, next) + Translate(state, next, frame).value + PrimaryTrailer(next)
    {
      scratch := [];
      if state.activeCount == 0 && next.activeCount > 0 {
        scratch := scratch + [LinuxEvent(BtnTouch, 1)];
      } else if state.activeCount > 0 && next.activeCount == 0 {
        scratch := scratch + [LinuxEvent(BtnTouch, 0)];
      }
      r := PushEvents(next, frame);
      if r.Ok? {
        PushPrimary(next);
      }
    }

    // inject_frame: on any error, a refused write included, the table and the device stay as they
    // were. An orderly frame is accepted exactly when the contact map accepts it (unless the write
    // fails), and keeps the device in step with the table.
    method InjectFrame(frame: Frame) returns (r: Result<(), FrameError>)
      requires Valid()
      modifies this, sink
      ensures Valid()
      ensures r.Err? ==> state == old(state) && sink.batches == old(sink.batches)
      ensures sink.failures == old(sink.failures) + (if r == Err(Emit) then 1 else 0)
      ensures frame == [] ==> r == Err(EmptyFrame)
      ensures r.Ok? ==> Play(config, old(state.View()), frame) == Ok(state.View())
      ensures Orderly(frame) && frame != [] ==>
                match Play(config, old(state.View()), frame)
                case Err(error) => r == Err(error)
                case Ok(_) => r.Ok? || r == Err(Emit)
      ensures Orderly(frame) && old(InSync()) ==> InSync()
      ensures r == Err(Emit) ==> !sink.reliable
    {
      if frame == [] {
        return Err(EmptyFrame);
      }
      NoErrorIsEmit(config, state, frame);
      var computed := ComputeNextState(frame);
      if computed.Err? {
        return Err(computed.error);
      }
      var next := computed.value;
      ghost var before := Replay(config, sink.batches);
      if Orderly(frame) {
        AcceptedPlan(config, state, frame, before);
      }
      TranslateErrors(state, next, frame);
      var built := BuildBatch(next, frame);
      if built.Err? {
        return built;
      }
      var ok := sink.Emit(scratch);
      if !ok {
        return Err(Emit);
      }
      assert sink.batches[..|sink.batches| - 1] == old(sink.batches);
      state := next;
      return Ok(());
    }
  }

  function Prepend(front: seq<LinuxEvent>, back: Result<seq<LinuxEvent>, FrameError>):
      Result<seq<LinuxEvent>, FrameError> {
    if back.Ok? then Ok(front + back.value) else back
  }

  lemma PrependNothing(back: Result<seq<LinuxEvent>, FrameError>)
    ensures Prepend([], back) == back
  {
    if back.Ok? { assert [] + back.value == back.value; }
  }

  lemma PrependTwice(front: seq<LinuxEvent>, middle: seq<LinuxEvent>, back: Result<seq<LinuxEvent>, FrameError>)
    ensures Prepend(front, Prepend(middle, back)) == Prepend(front + middle, back)
  {
    if back.Ok? { assert front + (middle + back.value) == front + middle + back.value; }
  }

  lemma AcceptedPlan(config: Config, state: SlotState, frame: Frame, receiver: Receiver)
    requires config.Valid() && state.Valid(config) && Orderly(frame) && frame != []
    requires NextState(config, state, frame).Ok?
    ensures var next := NextState(config, state, frame).value;
            && Translate(state, next, frame).Ok?
            && (Agrees(state, receiver) ==>
                  Agrees(next, FeedAll(receiver,
                                       TouchHeader(state, next) + Translate(state, next, frame).value
                                           + PrimaryTrailer(next))))
  {
    AgreeingReceiver(config, state);
    var some :| Agrees(state, some);
    BatchSimulates(config, state, frame, some);
    if Agrees(state, receiver) {
      BatchSimulates(config, state, frame, receiver);
    }
  }

  lemma {:induction false} TranslateErrors(current: SlotState, next: SlotState, frame: Frame)
    requires current.WellFormed() && next.WellFormed()
    ensures Translate(current, next, frame) != Err(Emit)
    decreases |frame|
  {
    if frame != [] {
      TranslateErrors(current, next, frame[1..]);
    }
  }

  lemma {:induction false} NoErrorIsEmit(config: Config, state: SlotState, frame: Frame)
    requires state.WellFormed()
    ensures NextState(config, state, frame) != Err(Emit)
    decreases |frame|
  {
    if frame != [] && ApplyEvent(config, state, frame[0]).Ok? {
      NoErrorIsEmit(config, ApplyEvent(config, state, frame[0]).value, frame[1..]);
    }
  }

  // ---------------------------------------------------------------------------------------
  // TouchEngine

  datatype EngineError =
    | EmptyTouchFrame
    | DuplicateContactInFrame(contact: ContactId)
    | AlreadyActive(contact: ContactId)
    | NotActive(contact: ContactId)
    | Injection(cause: FrameError)

  // What validate_frame demands of every event, against the contacts before the frame.
  ghost predicate Fits(contacts: Contacts, event: TouchEvent) {
    event.phase.Down? <==> event.contact !in contacts
  }

  ghost predicate Admissible(contacts: Contacts, frame: Frame) {
    && frame != []
    && Distinct(frame)
    && forall event | event in frame :: Fits(contacts, event)
  }

  // apply_frame
  function Applied(contacts: Contacts, frame: Frame): Contacts
    decreases |frame|
  {
    if frame == [] then contacts
    else
      var event := frame[0];
      var next := if event.phase.Lifts() then contacts - {event.contact} else contacts[event.contact := event.position];
      Applied(next, frame[1..])
  }

  // Once the engine admits a frame the injector can only refuse it for room, for a position off
  // the surface, or because the device write fails; and both sides agree on what it does.
  lemma {:induction false} AdmittedPlays(config: Config, contacts: Contacts, frame: Frame)
    requires Distinct(frame) && forall event | event in frame :: Fits(contacts, event)
    ensures match Play(config, contacts, frame)
            case Ok(next) => next == Applied(contacts, frame)
            case Err(error) => error.NoFreeSlot? || error.CoordinateOutOfRange?
    decreases |frame|
  {
    if frame != [] {
      assert frame[0] in frame;
      match Step(config, contacts, frame[0])
      case Err(_) =>
      case Ok(next) =>
        forall event | event in frame[1..] ensures Fits(next, event) {
          var j :| 0 <= j < |frame[1..]| && frame[1..][j] == event;
          assert frame[j + 1] == event && event in frame && frame[0].contact != frame[j + 1].contact;
        }
        assert Distinct(frame[1..]) by {
          forall i, j | 0 <= i < j < |frame[1..]| ensures frame[1..][i].contact != frame[1..][j].contact {
            assert frame[i + 1].contact != frame[j + 1].contact;
          }
        }
        AdmittedPlays(config, next, frame[1..]);
    }
  }

  class TouchEngine {
    const injector: UinputTouchInjector
    var contacts: Contacts
    // Every frame accepted so far.
    ghost var frames: seq<Frame>

    // The engine's map, the injector's table and the device all show the same contacts.
    ghost predicate Valid()
      reads this, injector, injector.sink
    {
      injector.Valid() && injector.InSync() && contacts == injector.state.View()
    }

    constructor (injector: UinputTouchInjector)
      requires injector.Valid() && injector.InSync() && injector.state.View() == map[]
      ensures this.injector == injector
      ensures Valid() && contacts == map[] && frames == []
    {
      this.injector := injector;
      contacts := map[];
      frames := [];
    }

    method ValidateFrame(frame: Frame) returns (r: Result<(), EngineError>)
      ensures r.Ok? <==> Admissible(contacts, frame)
      ensures r == Err(EmptyTouchFrame) <==> frame == []
      ensures r.Err? && frame != [] ==>
                match r.error
                case DuplicateContactInFrame(c) => exists i, j ::
                  0 <= i < j < |frame| && frame[i].contact == c == frame[j].contact
                case AlreadyActive(c) => c in contacts && exists i ::
                  0 <= i < |frame| && frame[i].contact == c && frame[i].phase.Down?
                case NotActive(c) => c !in contacts && exists i ::
                  0 <= i < |frame| && frame[i].contact == c && !frame[i].phase.Down?
                case _ => false
    {
      if frame == [] {
        return Err(EmptyTouchFrame);
      }
      var i := 0;
      while i < |frame|
        invariant 0 <= i <= |frame|
        invariant forall j, k | 0 <= j < k < i :: frame[j].contact != frame[k].contact
        invariant forall j | 0 <= j < i :: Fits(contacts, frame[j])
      {
        var event := frame[i];
        assert event in frame;
        if exists j | 0 <= j < i :: frame[j].contact == event.contact {
          return Err(DuplicateContactInFrame(event.contact));
        }
        if event.phase.Down? {
          if event.contact in contacts {
            return Err(AlreadyActive(event.contact));
          }
        } else if event.contact !in contacts {
          return Err(NotActive(event.contact));
        }
        i := i + 1;
      }
      return Ok(());
    }

    // Validate, inject, commit. Nothing changes unless all three succeed, and then the contacts
    // change as the frame says.
    method Submit(frame: Frame) returns (r: Result<(), EngineError>)
      requires Valid()
      modifies this, injector, injector.sink
      ensures Valid()
      ensures r.Ok? ==> Admissible(old(contacts), frame) && contacts == Applied(old(contacts), frame)
      ensures r.Err? ==> contacts == old(contacts) && injector.sink.batches == old(injector.sink.batches)
      ensures frames == if r.Ok? then old(frames) + [frame] else old(frames)
      ensures !Admissible(old(contacts), frame) ==> r.Err? && !r.error.Injection?
      ensures Admissible(old(contacts), frame) && Play(injector.config, old(contacts), frame).Ok? ==>
                r.Ok? || r == Err(Injection(Emit))
      ensures Admissible(old(contacts), frame) && Play(injector.config, old(contacts), frame).Err? ==>
                && r == Err(Injection(Play(injector.config, old(contacts), frame).error))
                && (r.error.cause.NoFreeSlot? || r.error.cause.CoordinateOutOfRange?)
      ensures injector.sink.failures == old(injector.sink.failures) + (if r == Err(Injection(Emit)) then 1 else 0)
      ensures r == Err(Injection(Emit)) ==> !injector.sink.reliable
    {
      var valid := ValidateFrame(frame);
      if valid.Err? {
        return valid;
      }
      assert Orderly(frame);
      AdmittedPlays(injector.config, contacts, frame);
      var injected := injector.InjectFrame(frame);
      if injected.Err? {
        return Err(Injection(injected.error));
      }
      contacts := Applied(contacts, frame);
      frames := frames + [frame];
      return Ok(());
    }

    method BeginContact(contact: ContactId, position: Point) returns (r: Result<(), EngineError>)
      requires Valid()
      modifies this, injector, injector.sink
      ensures Valid()
      ensures r.Ok? ==> contact !in old(contacts) && contacts == old(contacts)[contact := position]
      ensures r.Err? ==> contacts == old(contacts)
      ensures frames == if r.Ok? then old(frames) + [Single(contact, Down, position)] else old(frames)
      ensures (contact !in old(contacts) && |old(contacts)| < injector.config.slotCount
               && injector.config.Contains(position)) ==>
                r.Ok? || r == Err(Injection(Emit))
      ensures (contact !in old(contacts) && |old(contacts)| >= injector.config.slotCount
               && injector.config.Contains(position)) ==>
                r == Err(Injection(NoFreeSlot(contact)))
      ensures injector.sink.failures == old(injector.sink.failures) + (if r == Err(Injection(Emit)) then 1 else 0)
      ensures r == Err(Injection(Emit)) ==> !injector.sink.reliable
    {
      SinglePlays(injector.config, contacts, contact, Down, position);
      r := Submit(Single(contact, Down, position));
    }

    method MoveContact(contact: ContactId, position: Point) returns (r: Result<(), EngineError>)
      requires Valid()
      modifies this, injector, injector.sink
      ensures Valid()
      ensures r.Ok? ==> contact in old(contacts) && contacts == old(contacts)[contact := position]
      ensures r.Err? ==> contacts == old(contacts)
      ensures frames == if r.Ok? then old(frames) + [Single(contact, Move, position)] else old(frames)
      ensures contact in old(contacts) && injector.config.Contains(position) ==> r.Ok? || r == Err(Injection(Emit))
      ensures injector.sink.failures == old(injector.sink.failures) + (if r == Err(Injection(Emit)) then 1 else 0)
      ensures r == Err(Injection(Emit)) ==> !injector.sink.reliable
    {
      SinglePlays(injector.config, contacts, contact, Move, position);
      r := Submit(Single(contact, Move, position));
    }

    // An Up or Cancel frame as callers build it; its position means nothing.
    method LiftContactAt(contact: ContactId, phase: Phase, position: Point) returns (r: Result<(), EngineError>)
      requires Valid() && phase.Lifts()
      modifies this, injector, injector.sink
      ensures Valid()
      ensures r.Ok? ==> contact in old(contacts) && contacts == old(contacts) - {contact}
      ensures r.Err? ==> contacts == old(contacts)
      ensures frames == if r.Ok? then old(frames) + [Single(contact, phase, position)] else old(frames)
      ensures contact in old(contacts) ==> r.Ok? || r == Err(Injection(Emit))
      ensures injector.sink.failures == old(injector.sink.failures) + (if r == Err(Injection(Emit)) then 1 else 0)
      ensures r == Err(Injection(Emit)) ==> !injector.sink.reliable
    {
      SinglePlays(injector.config, contacts, contact, phase, position);
      r := Submit(Single(contact, phase, position));
    }

    // end_contact, and cancels: at the contact's own position.
    method LiftContact(contact: ContactId, phase: Phase) returns (r: Result<(), EngineError>)
      requires Valid() && phase.Lifts()
      modifies this, injector, injector.sink
      ensures Valid()
      ensures r.Ok? ==> contact in old(contacts) && contacts == old(contacts) - {contact}
      ensures r.Err? ==> contacts == old(contacts)
      ensures frames == if r.Ok? then old(frames) + [Single(contact, phase, old(contacts)[contact])] else old(frames)
      ensures contact in old(contacts) ==> r.Ok? || r == Err(Injection(Emit))
      ensures injector.sink.failures == old(injector.sink.failures) + (if r == Err(Injection(Emit)) then 1 else 0)
      ensures r == Err(Injection(Emit)) ==> !injector.sink.reliable
    {
      if contact !in contacts {
        return Err(NotActive(contact));
      }
      r := LiftContactAt(contact, phase, contacts[contact]);
    }

    // cancel_all: one frame lifts everything, and only the device can stop it.
    method CancelAll() returns (r: Result<bool, EngineError>)
      requires Valid()
      modifies this, injector, injector.sink
      ensures Valid()
      ensures r.Ok? ==> contacts == map[] && r.value == (old(contacts) != map[])
      ensures r.Err? ==> contacts == old(contacts) && r == Err(Injection(Emit))
      ensures frames == if r == Ok(true) then old(frames) + [CancelFrame(old(contacts))] else old(frames)
      ensures injector.sink.failures == old(injector.sink.failures) + (if r.Err? then 1 else 0)
      ensures r == Err(Injection(Emit)) ==> !injector.sink.reliable
    {
      if |contacts| == 0 {
        return Ok(false);
      }
      var frame := CancelFrame(contacts);
      CancelFrameEvents(contacts);
      CancelFrameLifts(injector.config, contacts);
      var submitted := Submit(frame);
      if submitted.Err? {
        return Err(submitted.error);
      }
      return Ok(true);
    }
  }

  lemma ContactsOnSurface(engine: TouchEngine)
    requires engine.Valid()
    ensures forall c | c in engine.contacts :: engine.injector.config.Contains(engine.contacts[c])
  {
  }

  function Single(contact: ContactId, phase: Phase, position: Point): (frame: Frame)
    ensures |frame| == 1 && frame[0] == TouchEvent(contact, phase, position) && frame[1..] == []
  {
    [TouchEvent(contact, phase, position)]
  }

  lemma SinglePlays(config: Config, contacts: Contacts, contact: ContactId, phase: Phase, position: Point)
    ensures Play(config, contacts, Single(contact, phase, position))
            == Step(config, contacts, TouchEvent(contact, phase, position))
    ensures Admissible(contacts, Single(contact, phase, position)) <==> (phase.Down? <==> contact !in contacts)
    ensures Applied(contacts, Single(contact, phase, position))
         == if phase.Lifts() then contacts - {contact} else contacts[contact := position]
  {
    var frame := Single(contact, phase, position);
    assert frame[0] in frame;
    assert forall event | event in frame :: event == frame[0];
  }

  // The contacts in ascending order, as the source's ordered map yields them.
  ghost predicate IsLeast(ids: set<ContactId>, id: ContactId) {
    id in ids && forall other | other in ids :: id <= other
  }

  lemma LeastExists(ids: set<ContactId>)
    requires ids != {}
    ensures exists id :: IsLeast(ids, id)
  {
    var id :| id in ids;
    if ids != {id} {
      LeastExists(ids - {id});
      var rest :| IsLeast(ids - {id}, rest);
      var least := if id <= rest then id else rest;
      forall other | other in ids ensures least <= other {
        assert other == id || other in ids - {id};
      }
      assert IsLeast(ids, least);
    } else {
      assert IsLeast(ids, id);
    }
  }

  function Least(ids: set<ContactId>): (id: ContactId)
    requires ids != {}
    ensures IsLeast(ids, id)
  {
    LeastExists(ids);
    var id :| id in ids && forall other | other in ids :: id <= other;
    id
  }

  function CancelFrame(contacts: Contacts): (frame: Frame)
    decreases |contacts|
  {
    if contacts == map[] then []
    else
      var id := Least(contacts.Keys);
      assert contacts.Keys == (contacts - {id}).Keys + {id};
      [TouchEvent(id, Cancel, contacts[id])] + CancelFrame(contacts - {id})
  }

  lemma {:induction false} CancelFrameEvents(contacts: Contacts)
    ensures forall event | event in CancelFrame(contacts) :: event.contact in contacts && event.phase.Cancel?
    ensures Distinct(CancelFrame(contacts))
    decreases |contacts|
  {
    if contacts != map[] {
      var id := Least(contacts.Keys);
      var rest := contacts - {id};
      assert contacts.Keys == rest.Keys + {id};
      CancelFrameEvents(rest);
      var frame, tail := CancelFrame(contacts), CancelFrame(rest);
      forall i, j | 0 <= i < j < |frame| ensures frame[i].contact != frame[j].contact {
        assert frame[j] == tail[j - 1] && tail[j - 1] in tail;
        if i > 0 { assert frame[i] == tail[i - 1]; }
      }
    }
  }

  lemma {:induction false} CancelFrameLifts(config: Config, contacts: Contacts)
    ensures Play(config, contacts, CancelFrame(contacts)) == Ok(map[])
    ensures Applied(contacts, CancelFrame(contacts)) == map[]
    decreases |contacts|
  {
    if contacts != map[] {
      var id := Least(contacts.Keys);
      var rest := contacts - {id};
      assert contacts.Keys == rest.Keys + {id};
      CancelFrameLifts(config, rest);
      var frame := CancelFrame(contacts);
      assert frame[0] == TouchEvent(id, Cancel, contacts[id]) && frame[1..] == CancelFrame(rest);
    }
  }
}
