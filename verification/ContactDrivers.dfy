// The small operations that drive one contact through the engine: a joystick, a hold binding and a
// tap (crates/wroid-runtime/src/joystick.rs, crates/wroid-inject/src/game_session.rs).

module ContactDrivers {
  import opened Wrappers
  import opened Touch
  import opened Injector
  import opened Controls

  ghost predicate SameOutside(before: Contacts, after: Contacts, ids: set<ContactId>) {
    forall c: ContactId | c !in ids ::
      (c in before <==> c in after) && (c in before ==> before[c] == after[c])
  }

  lemma SameOutsideItself(contacts: Contacts, ids: set<ContactId>)
    ensures SameOutside(contacts, contacts, ids)
  {
  }

  lemma SameOutsideMore(before: Contacts, between: Contacts, after: Contacts, ids: set<ContactId>)
    ensures SameOutside(before, between, ids) && SameOutside(between, after, ids) ==> SameOutside(before, after, ids)
  {
  }

  lemma SameOutsideWider(before: Contacts, after: Contacts, ids: set<ContactId>, wider: set<ContactId>)
    ensures SameOutside(before, after, ids) && ids <= wider ==> SameOutside(before, after, wider)
  {
  }

  // What was sent in between, and on which contacts.
  ghost predicate SentOn(before: seq<Frame>, after: seq<Frame>, ids: set<ContactId>) {
    && before <= after
    && forall k | |before| <= k < |after| :: OnlyOn(after[k], ids)
  }

  ghost predicate OnlyOn(frame: Frame, ids: set<ContactId>) {
    forall event | event in frame :: event.contact in ids
  }

  lemma SentNothing(frames: seq<Frame>, ids: set<ContactId>)
    ensures SentOn(frames, frames, ids)
  {
  }

  lemma SentMore(before: seq<Frame>, between: seq<Frame>, after: seq<Frame>, ids: set<ContactId>)
    ensures SentOn(before, between, ids) && SentOn(between, after, ids) ==> SentOn(before, after, ids)
  {
  }

  // One more turn of a loop that stays on the same contacts.
  lemma FramedMore(sent0: seq<Frame>, sent1: seq<Frame>, sent2: seq<Frame>, contacts0: Contacts, contacts1: Contacts,
                   contacts2: Contacts, ids: set<ContactId>)
    requires SentOn(sent0, sent1, ids) && SentOn(sent1, sent2, ids)
    requires SameOutside(contacts0, contacts1, ids) && SameOutside(contacts1, contacts2, ids)
    ensures SentOn(sent0, sent2, ids) && SameOutside(contacts0, contacts2, ids)
  {
  }

  lemma SentWider(before: seq<Frame>, after: seq<Frame>, ids: set<ContactId>, wider: set<ContactId>)
    ensures SentOn(before, after, ids) && ids <= wider ==> SentOn(before, after, wider)
  {
  }

  lemma SentMoves(before: seq<Frame>, after: seq<Frame>, contact: ContactId, position: Point, ids: set<ContactId>)
    requires after == before || after == before + [Single(contact, Move, position)]
    requires contact in ids
    ensures SentOn(before, after, ids)
  {
  }

  function PositionOf(contacts: Contacts, contact: ContactId): Option<Point> {
    if contact in contacts then Some(contacts[contact]) else None
  }

  // Nothing but a refused device write can have caused this error.
  predicate DeviceRefused<T>(r: Result<T, EngineError>) { r == Err(Injection(Emit)) }

  lemma AcceptedNotRefused<T>(accepted: T)
    ensures !DeviceRefused(Result<T, EngineError>.Ok(accepted))
  {
  }

  ghost predicate Roomy(engine: TouchEngine, contact: ContactId)
    reads engine
  {
    contact in engine.contacts || |engine.contacts| < engine.injector.config.slotCount
  }

  // The frame that takes a contact from one place to another: none, a down, an up or a move.
  function SteerFrames(contact: ContactId, current: Option<Point>, target: Option<Point>): seq<Frame> {
    if current == target then []
    else if current.None? then [Single(contact, Down, target.value)]
    else if target.None? then [Single(contact, Up, current.value)]
    else [Single(contact, Move, target.value)]
  }

  // The frame that brings a hold contact down or up; both carry the binding's point.
  function HoldFrames(contact: ContactId, active: bool, point: Point, pressed: bool): seq<Frame> {
    if active == pressed then [] else [Single(contact, if pressed then Down else Up, point)]
  }

  function TapFrames(contact: ContactId, point: Point): seq<Frame> {
    [Single(contact, Down, point), Single(contact, Up, point)]
  }

  // VirtualJoystick::apply
  method ApplyJoystick(engine: TouchEngine, joystick: Joystick, direction: Direction)
    returns (r: Result<bool, EngineError>)
    requires engine.Valid() && |joystick.targets| == 9
    modifies engine, engine.injector, engine.injector.sink
    ensures engine.Valid()
    ensures SameOutside(old(engine.contacts), engine.contacts, {joystick.contact})
    ensures r.Ok? ==> PositionOf(engine.contacts, joystick.contact) == joystick.Target(direction)
    ensures r.Ok? ==> (r.value <==> engine.contacts != old(engine.contacts))
    ensures r.Ok? ==>
              engine.frames == old(engine.frames)
                               + SteerFrames(joystick.contact, PositionOf(old(engine.contacts), joystick.contact),
                                             joystick.Target(direction))
    ensures r == Ok(false) ==> engine.injector.sink.batches == old(engine.injector.sink.batches)
    ensures r.Err? ==> engine.contacts == old(engine.contacts) && engine.frames == old(engine.frames)
    ensures SentOn(old(engine.frames), engine.frames, {joystick.contact})
    // Apart from the device, only a stick that must be put down without a free slot can fail.
    ensures (forall p | p in joystick.targets :: engine.injector.config.Contains(p)) ==>
              if joystick.Target(direction).Some? && !old(Roomy(engine, joystick.contact))
              then r == Err(Injection(NoFreeSlot(joystick.contact)))
              else r.Ok? || DeviceRefused(r)
    ensures engine.injector.sink.failures == old(engine.injector.sink.failures) + (if DeviceRefused(r) then 1 else 0)
    ensures DeviceRefused(r) ==> !engine.injector.sink.reliable
  {
    hide TouchEngine.Valid;
    var target := joystick.Target(direction);
    var current := PositionOf(engine.contacts, joystick.contact);
    if current == target {
      return Ok(false);
    }
    var done: Result<(), EngineError>;
    if current.None? {
      done := engine.BeginContact(joystick.contact, target.value);
    } else if target.None? {
      done := engine.LiftContact(joystick.contact, Up);
    } else {
      done := engine.MoveContact(joystick.contact, target.value);
    }
    if done.Err? {
      return Err(done.error);
    }
    return Ok(true);
  }

  // set_hold_binding
  method SetHold(engine: TouchEngine, contact: ContactId, point: Point, pressed: bool)
    returns (r: Result<bool, EngineError>)
    requires engine.Valid()
    modifies engine, engine.injector, engine.injector.sink
    ensures engine.Valid()
    ensures SameOutside(old(engine.contacts), engine.contacts, {contact})
    ensures r.Ok? ==> (contact in engine.contacts <==> pressed)
    ensures r.Ok? ==> (r.value <==> (contact in old(engine.contacts)) != pressed)
    ensures r == Ok(true) && pressed ==> engine.contacts[contact] == point
    ensures r == Ok(false) ==> engine.contacts == old(engine.contacts)
                               && engine.injector.sink.batches == old(engine.injector.sink.batches)
    ensures r.Err? ==> engine.contacts == old(engine.contacts) && engine.frames == old(engine.frames)
    ensures r.Ok? ==>
              engine.frames == old(engine.frames)
                               + HoldFrames(contact, contact in old(engine.contacts), point, pressed)
    ensures SentOn(old(engine.frames), engine.frames, {contact})
    ensures engine.injector.config.Contains(point) ==>
              if pressed && !old(Roomy(engine, contact)) then r == Err(Injection(NoFreeSlot(contact)))
              else r.Ok? || DeviceRefused(r)
    ensures engine.injector.sink.failures == old(engine.injector.sink.failures) + (if DeviceRefused(r) then 1 else 0)
    ensures DeviceRefused(r) ==> !engine.injector.sink.reliable
  {
    hide TouchEngine.Valid;
    if (contact in engine.contacts) == pressed {
      return Ok(false);
    }
    var done: Result<(), EngineError>;
    if pressed {
      done := engine.BeginContact(contact, point);
    } else {
      done := engine.LiftContactAt(contact, Up, point);
    }
    if done.Err? {
      return Err(done.error);
    }
    return Ok(true);
  }

  // tap_binding: down and up in two frames, leaving no contact behind.
  method TapContact(engine: TouchEngine, contact: ContactId, point: Point) returns (r: Result<(), EngineError>)
    requires engine.Valid()
    modifies engine, engine.injector, engine.injector.sink
    ensures engine.Valid()
    ensures r.Ok? ==> engine.contacts == old(engine.contacts) && contact !in engine.contacts
    ensures r.Ok? ==> engine.frames == old(engine.frames) + TapFrames(contact, point)
    // Apart from the device, it fails exactly if no slot is free.
    ensures engine.injector.config.Contains(point) && contact !in old(engine.contacts) ==>
              if |old(engine.contacts)| >= engine.injector.config.slotCount
              then r == Err(Injection(NoFreeSlot(contact)))
              else r.Ok? || DeviceRefused(r)
    ensures DeviceRefused(r) ==> !engine.injector.sink.reliable
  {
    hide TouchEngine.Valid;
    var down := engine.BeginContact(contact, point);
    if down.Err? {
      return down;
    }
    r := engine.LiftContactAt(contact, Up, point);
    assert r.Ok? ==> engine.contacts == old(engine.contacts)[contact := point] - {contact};
  }
}
