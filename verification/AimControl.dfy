// The mouse-aim controller: which of its two contacts is down, where motion takes it, and when it is
// recentred (crates/wroid-runtime/src/mouse_aim.rs). Whether a pause is over or a position due to be
// repeated comes in with the call; everything else is computed.

module AimControl {
  import opened Wrappers
  import opened Touch
  import opened TypeB
  import opened Injector
  import opened AimMotion
  import opened Controls
  import opened ContactDrivers
  import opened Slots

  // A lifted contact whose successor waits for the pause to be over, and the motion to be made up then.
  datatype Pending = Pending(contact: ContactId, previous: ContactId, dx: int, dy: int)

  datatype AimController = AimController(spec: MouseAim, active: Option<ContactId>, next: ContactId,
                                         pending: Option<Pending>, ads: bool, accumulator: ScaleAccumulator) {
    predicate IsActive() { active.Some? || pending.Some? }

    predicate Idle() { active.None? && pending.None? }

    function Ids(): set<ContactId> { {spec.contact, spec.alternate} }

    function Scale(): Ratio { InForce(spec.sensitivity, ads, spec.multiplier) }

    // The remainders are below one pixel of the scale in force.
    predicate Exact() { accumulator.Below(Scale().denominator) }

    // set_ads_active: a change of scale drops the remainders, which could exceed a pixel of the new one.
    function Sighted(sighted: bool): (after: AimController)
      ensures Exact() ==> after.Exact()
      ensures after.ads == sighted && (ads == sighted ==> after == this)
      ensures after.spec == spec && after.active == active && after.pending == pending
      ensures ads != sighted ==> after.accumulator.carryX == 0 == after.accumulator.carryY
    {
      if ads == sighted then this else this.(ads := sighted, accumulator := NO_REMAINDER)
    }

    // Where motion takes a contact from some position, and from the origin.
    function Target(from: Point, dx: int, dy: int): (p: Point)
      requires spec.region.NonEmpty()
      ensures spec.region.Contains(p)
    {
      spec.region.Clamp(Offset(from, dx, dy))
    }

    function Landing(dx: int, dy: int): Point
      requires spec.region.NonEmpty()
    {
      Target(spec.origin, dx, dy)
    }

    predicate TooFar(target: Point)
      requires spec.region.NonEmpty()
    {
      PastThreshold(spec.region, spec.origin, spec.thresholdMilli, target)
    }

    // The controller and the engine agree on the one contact it may own, which is in its region.
    ghost predicate Grounded(contacts: Contacts) {
      && spec.contact != spec.alternate
      && (forall c | c in Ids() :: c in contacts <==> active == Some(c))
      && (forall c | c in Ids() && c in contacts :: spec.region.Contains(contacts[c]))
      && (active.Some? ==> pending.None? && Ids() == {active.value, next} && active.value != next)
      && (pending.Some? ==> Ids() == {pending.value.contact, pending.value.previous}
                            && pending.value.contact != pending.value.previous)
    }

    // How many contacts putting down or lifting something costs, step by step.
    function ActivateSteps(): seq<int> { if IsActive() then [] else [1] }

    function DeactivateSteps(): seq<int> { if active.Some? then [-1] else [] }

    function TickSteps(due: bool): seq<int> { if due && pending.Some? then [1] else [] }

    // Without a gap a recentred contact is down beside its successor for a moment.
    function RecenterSteps(): seq<int> { if spec.gap then [-1] else [1, -1] }

    function ArriveSteps(x: int, y: int, position: Point): seq<int>
      requires spec.region.NonEmpty()
    {
      var target := Target(position, x, y);
      if target != position && TooFar(target) then RecenterSteps() else []
    }

    function MoveSteps(dx: int, dy: int, due: bool, position: Option<Point>): seq<int>
      requires spec.region.NonEmpty()
    {
      var scaled := accumulator.Scaling(dx, dy, Scale());
      if dx == 0 == dy then []
      else if pending.Some? then TickSteps(due)
      else if active.Some? && position.Some? then ArriveSteps(scaled.x, scaled.y, position.value)
      else []
    }
  }

  function NewAim(spec: MouseAim): (aim: AimController)
    ensures aim.Exact() && aim.Idle()
  {
    AimController(spec, None, spec.alternate, None, false, NO_REMAINDER)
  }

  // The position of the contact that is down, if any.
  function AimPosition(aim: AimController, contacts: Contacts): Option<Point> {
    if aim.active.Some? then PositionOf(contacts, aim.active.value) else None
  }

  method ActivateAim(engine: TouchEngine, aim: AimController)
    returns (after: AimController, r: Result<bool, EngineError>)
    requires engine.Valid() && aim.Grounded(engine.contacts) && aim.spec.ValidFor(engine.injector.config)
    modifies engine, engine.injector, engine.injector.sink
    ensures engine.Valid() && after.spec == aim.spec && (aim.Exact() ==> after.Exact())
    ensures SameOutside(old(engine.contacts), engine.contacts, aim.Ids())
    ensures SentOn(old(engine.frames), engine.frames, aim.Ids())
    ensures r.Ok? ==> after.IsActive() && after.Grounded(engine.contacts)
    ensures r.Ok? ==> (r.value <==> !aim.IsActive())
    ensures aim.IsActive() ==> r == Ok(false) && after == aim && engine.contacts == old(engine.contacts)
    ensures r == Ok(true) ==> after.active == Some(aim.spec.contact)
                              && engine.contacts == old(engine.contacts)[aim.spec.contact := aim.spec.origin]
    ensures r.Err? ==> engine.contacts == old(engine.contacts) && after == aim
    ensures Staged(r.Ok?, DeviceRefused(r), aim.ActivateSteps(), |old(engine.contacts)|, |engine.contacts|,
                   engine.injector.config.slotCount)
    ensures DeviceRefused(r) ==> !engine.injector.sink.reliable
  {
    hide TouchEngine.Valid, Staged;
    after := aim;
    if aim.IsActive() {
      StagedNone(|engine.contacts|, engine.injector.config.slotCount);
      return after, Ok(false);
    }
    var begun := engine.BeginContact(aim.spec.contact, aim.spec.origin);
    StagedOne(begun.Ok?, DeviceRefused(begun), 1, |old(engine.contacts)|, |engine.contacts|,
              engine.injector.config.slotCount);
    if begun.Err? {
      return after, Err(begun.error);
    }
    after := aim.(active := Some(aim.spec.contact), next := aim.spec.alternate);
    return after, Ok(true);
  }

  method DeactivateAim(engine: TouchEngine, aim: AimController)
    returns (after: AimController, r: Result<bool, EngineError>)
    requires engine.Valid()
    modifies engine, engine.injector, engine.injector.sink
    ensures engine.Valid() && after.spec == aim.spec && (aim.Exact() ==> after.Exact())
    ensures aim.Grounded(old(engine.contacts)) ==>
              && SameOutside(old(engine.contacts), engine.contacts, aim.Ids())
              && SentOn(old(engine.frames), engine.frames, aim.Ids())
              && Staged(r.Ok?, DeviceRefused(r), aim.DeactivateSteps(), |old(engine.contacts)|, |engine.contacts|,
                        engine.injector.config.slotCount)
    ensures r.Ok? ==> after.Idle() && !after.ads && after.accumulator == NO_REMAINDER
    ensures r.Ok? && aim.Grounded(old(engine.contacts)) ==>
              after.Grounded(engine.contacts) && (r.value <==> aim.IsActive())
    ensures r.Err? ==> DeviceRefused(r) && engine.contacts == old(engine.contacts)
    ensures DeviceRefused(r) ==> !engine.injector.sink.reliable
  {
    hide TouchEngine.Valid, Staged;
    after := aim;
    var changed := false;
    StagedNone(|engine.contacts|, engine.injector.config.slotCount);
    if aim.active.Some? {
      var contact := aim.active.value;
      after := after.(active := None);
      if contact in engine.contacts {
        var lifted := engine.LiftContact(contact, Up);
        StagedOne(lifted.Ok?, DeviceRefused(lifted), -1, |old(engine.contacts)|, |engine.contacts|,
                  engine.injector.config.slotCount);
        if lifted.Err? {
          return after, Err(lifted.error);
        }
        changed := true;
      }
    }
    if after.pending.Some? {
      after := after.(pending := None);
      changed := true;
    }
    after := after.(ads := false, accumulator := NO_REMAINDER);
    return after, Ok(changed);
  }

  method ToggleAim(engine: TouchEngine, aim: AimController) returns (after: AimController, r: Result<bool, EngineError>)
    requires engine.Valid() && aim.Grounded(engine.contacts) && aim.spec.ValidFor(engine.injector.config)
    modifies engine, engine.injector, engine.injector.sink
    ensures engine.Valid() && after.spec == aim.spec && (aim.Exact() ==> after.Exact())
    ensures SameOutside(old(engine.contacts), engine.contacts, aim.Ids())
    ensures SentOn(old(engine.frames), engine.frames, aim.Ids())
    ensures r.Ok? ==> r.value && after.Grounded(engine.contacts) && (after.IsActive() <==> !aim.IsActive())
    ensures r.Ok? && aim.IsActive() ==> after.Idle() && !after.ads && after.accumulator == NO_REMAINDER
    ensures r.Ok? && !aim.IsActive() ==>
              after.active == Some(aim.spec.contact)
              && engine.contacts == old(engine.contacts)[aim.spec.contact := aim.spec.origin]
    ensures Staged(r.Ok?, DeviceRefused(r), if aim.IsActive() then aim.DeactivateSteps() else aim.ActivateSteps(),
                   |old(engine.contacts)|, |engine.contacts|, engine.injector.config.slotCount)
    ensures DeviceRefused(r) ==> !engine.injector.sink.reliable
  {
    hide TouchEngine.Valid, Staged;
    if aim.IsActive() {
      after, r := DeactivateAim(engine, aim);
    } else {
      after, r := ActivateAim(engine, aim);
    }
  }

  // cancel: forgets the contact before it submits the frame, so a second call always succeeds.
  method CancelAim(engine: TouchEngine, aim: AimController) returns (after: AimController, r: Result<bool, EngineError>)
    requires engine.Valid()
    modifies engine, engine.injector, engine.injector.sink
    ensures engine.Valid() && after.spec == aim.spec && after.Idle() && (aim.Exact() ==> after.Exact())
    ensures r.Ok? ==> !after.ads && after.accumulator == NO_REMAINDER
    ensures r.Ok? ==> engine.contacts == old(engine.contacts) - (if aim.active.Some? then {aim.active.value} else {})
    ensures r.Err? ==> DeviceRefused(r) && engine.contacts == old(engine.contacts)
    ensures engine.injector.sink.failures == old(engine.injector.sink.failures) + (if r.Err? then 1 else 0)
    ensures aim.Idle() ==> r.Ok? && engine.contacts == old(engine.contacts)
    ensures DeviceRefused(r) ==> !engine.injector.sink.reliable
  {
    hide TouchEngine.Valid;
    after := aim.(pending := None);
    var changed := aim.pending.Some?;
    if aim.active.Some? {
      var contact := aim.active.value;
      after := after.(active := None);
      if contact in engine.contacts {
        var lifted := engine.LiftContact(contact, Cancel);
        if lifted.Err? {
          return after, Err(lifted.error);
        }
        changed := true;
      }
    }
    after := after.(ads := false, accumulator := NO_REMAINDER);
    return after, Ok(changed);
  }

  // apply_residual: the motion left over when a contact was put down at the origin.
  method ApplyResidual(engine: TouchEngine, aim: AimController, contact: ContactId, dx: int, dy: int)
    returns (r: Result<(), EngineError>)
    requires engine.Valid() && aim.spec.ValidFor(engine.injector.config)
    requires contact in engine.contacts && engine.contacts[contact] == aim.spec.origin
    modifies engine, engine.injector, engine.injector.sink
    ensures engine.Valid()
    ensures r.Ok? ==> engine.contacts == old(engine.contacts)[contact := aim.Landing(dx, dy)]
    ensures r.Err? ==> DeviceRefused(r) && engine.contacts == old(engine.contacts)
    ensures SentOn(old(engine.frames), engine.frames, {contact})
    ensures DeviceRefused(r) ==> !engine.injector.sink.reliable
  {
    hide TouchEngine.Valid;
    var target := aim.spec.region.Clamp(Offset(aim.spec.origin, dx, dy));
    r := Ok(());
    if target != aim.spec.origin {
      r := engine.MoveContact(contact, target);
    }
  }

  // The pause is over: the other contact goes down at the origin.
  method ResumeAim(engine: TouchEngine, aim: AimController) returns (after: AimController, r: Result<bool, EngineError>)
    requires engine.Valid() && aim.Grounded(engine.contacts) && aim.spec.ValidFor(engine.injector.config)
    requires aim.pending.Some?
    modifies engine, engine.injector, engine.injector.sink
    ensures engine.Valid() && after.spec == aim.spec && after.accumulator == aim.accumulator && after.ads == aim.ads
    ensures SameOutside(old(engine.contacts), engine.contacts, aim.Ids())
    ensures SentOn(old(engine.frames), engine.frames, aim.Ids())
    ensures r.Ok? ==>
              && r.value && after.Grounded(engine.contacts) && after.IsActive()
              && after.active == Some(aim.pending.value.contact) && after.next == aim.pending.value.previous
              && engine.contacts
                 == old(engine.contacts)[aim.pending.value.contact := aim.Landing(aim.pending.value.dx,
                                                                                  aim.pending.value.dy)]
    ensures Staged(r.Ok?, DeviceRefused(r), [1], |old(engine.contacts)|, |engine.contacts|,
                   engine.injector.config.slotCount)
    ensures DeviceRefused(r) ==> !engine.injector.sink.reliable
  {
    hide TouchEngine.Valid, Staged, SentOn;
    after := aim;
    var pending := aim.pending.value;
    var begun := engine.BeginContact(pending.contact, aim.spec.origin);
    SentSingle(old(engine.frames), engine.frames, begun.Ok?, pending.contact, Down, aim.spec.origin, aim.Ids());
    StagedOne(begun.Ok?, DeviceRefused(begun), 1, |old(engine.contacts)|, |engine.contacts|,
              engine.injector.config.slotCount);
    if begun.Err? {
      return after, Err(begun.error);
    }
    after := aim.(active := Some(pending.contact), next := pending.previous, pending := None);
    ghost var between, count := engine.frames, |engine.contacts|;
    var moved := ApplyResidual(engine, aim, pending.contact, pending.dx, pending.dy);
    SentWider(between, engine.frames, {pending.contact}, aim.Ids());
    SentMore(old(engine.frames), between, engine.frames, aim.Ids());
    if moved.Err? {
      StagedRefused([1], |old(engine.contacts)|, count, engine.injector.config.slotCount);
      return after, Err(moved.error);
    }
    return after, Ok(true);
  }

  lemma SentSingle(before: seq<Frame>, after: seq<Frame>, ok: bool, contact: ContactId, phase: Phase, position: Point,
                   ids: set<ContactId>)
    requires after == if ok then before + [Single(contact, phase, position)] else before
    requires contact in ids
    ensures SentOn(before, after, ids)
  {
  }

  method TickAim(engine: TouchEngine, aim: AimController, due: bool)
    returns (after: AimController, r: Result<bool, EngineError>)
    requires engine.Valid() && aim.Grounded(engine.contacts) && aim.spec.ValidFor(engine.injector.config)
    modifies engine, engine.injector, engine.injector.sink
    ensures engine.Valid() && after.spec == aim.spec && after.accumulator == aim.accumulator && after.ads == aim.ads
    ensures SameOutside(old(engine.contacts), engine.contacts, aim.Ids())
    ensures SentOn(old(engine.frames), engine.frames, aim.Ids())
    ensures r.Ok? ==> after.Grounded(engine.contacts) && (after.IsActive() <==> aim.IsActive())
    ensures !due ==> r == Ok(false) && after == aim && engine.contacts == old(engine.contacts)
    ensures r.Ok? && aim.pending.None? ==> after == aim && engine.contacts == old(engine.contacts)
    ensures r.Ok? && due && aim.pending.Some? ==>
              && after.active == Some(aim.pending.value.contact) && after.next == aim.pending.value.previous
              && after.pending.None?
              && engine.contacts
                 == old(engine.contacts)[aim.pending.value.contact := aim.Landing(aim.pending.value.dx,
                                                                                  aim.pending.value.dy)]
    ensures Staged(r.Ok?, DeviceRefused(r), aim.TickSteps(due), |old(engine.contacts)|, |engine.contacts|,
                   engine.injector.config.slotCount)
    ensures DeviceRefused(r) ==> !engine.injector.sink.reliable
  {
    hide TouchEngine.Valid, Staged, SentOn;
    after := aim;
    SentNothing(engine.frames, aim.Ids());
    StagedNone(|engine.contacts|, engine.injector.config.slotCount);
    if !due {
      return after, Ok(false);
    }
    if aim.pending.Some? {
      after, r := ResumeAim(engine, aim);
      return;
    }
    if aim.active.None? || aim.active.value !in engine.contacts {
      return after, Ok(false);
    }
    // Reaffirm: the same position again.
    ContactsOnSurface(engine);
    var contact := aim.active.value;
    var position := engine.contacts[contact];
    var moved := engine.MoveContact(contact, position);
    SentSingle(old(engine.frames), engine.frames, moved.Ok?, contact, Move, position, aim.Ids());
    if moved.Err? {
      StagedRefused([], |old(engine.contacts)|, |engine.contacts|, engine.injector.config.slotCount);
      return after, Err(moved.error);
    }
    assert engine.contacts == old(engine.contacts);
    return after, Ok(true);
  }

  lemma AppliedPair(contacts: Contacts, down: TouchEvent, up: TouchEvent)
    requires down.phase.Down? && up.phase.Up?
    ensures Applied(contacts, [down, up]) == contacts[down.contact := down.position] - {up.contact}
  {
    assert [down, up][1..] == [up] && [up][1..] == [];
    var put := contacts[down.contact := down.position];
    assert Applied(put, [up]) == Applied(put - {up.contact}, []);
  }

  lemma PairAdmissible(contacts: Contacts, down: TouchEvent, up: TouchEvent)
    requires down.phase.Down? && up.phase.Up? && up.contact in contacts && down.contact !in contacts
    ensures Admissible(contacts, [down, up]) && OnlyOn([down, up], {down.contact, up.contact})
  {
  }

  lemma PairCounts(contacts: Contacts, outgoing: ContactId, incoming: ContactId, origin: Point)
    requires outgoing in contacts && incoming !in contacts
    ensures |contacts[incoming := origin] - {outgoing}| == |contacts|
  {
  }

  lemma PairPlays(config: Config, contacts: Contacts, down: TouchEvent, up: TouchEvent)
    requires down.phase.Down? && up.phase.Up? && config.Contains(down.position)
    requires up.contact in contacts && down.contact !in contacts
    ensures if |contacts| < config.slotCount then Play(config, contacts, [down, up]).Ok?
            else Play(config, contacts, [down, up]) == Err(NoFreeSlot(down.contact))
  {
    if |contacts| < config.slotCount {
      PlayBothOrders(config, contacts, down, up);
    }
  }

  // One frame puts a contact down and lifts another. Apart from the device it fails exactly if no slot is
  // to spare.
  method ExchangeContacts(engine: TouchEngine, outgoing: ContactId, incoming: ContactId, origin: Point)
    returns (r: Result<(), EngineError>)
    requires engine.Valid() && outgoing in engine.contacts && incoming !in engine.contacts
    requires engine.injector.config.Contains(origin)
    modifies engine, engine.injector, engine.injector.sink
    ensures engine.Valid()
    ensures r.Ok? ==> engine.contacts == old(engine.contacts)[incoming := origin] - {outgoing}
    ensures r.Err? ==> engine.contacts == old(engine.contacts)
    ensures SentOn(old(engine.frames), engine.frames, {incoming, outgoing})
    ensures if |old(engine.contacts)| >= engine.injector.config.slotCount then r == Err(Injection(NoFreeSlot(incoming)))
            else r.Ok? || DeviceRefused(r)
    ensures DeviceRefused(r) ==> !engine.injector.sink.reliable
  {
    hide TouchEngine.Valid, Play;
    var down, up := TouchEvent(incoming, Down, origin), TouchEvent(outgoing, Up, engine.contacts[outgoing]);
    PairPlays(engine.injector.config, engine.contacts, down, up);
    AppliedPair(engine.contacts, down, up);
    PairAdmissible(engine.contacts, down, up);
    r := engine.Submit([down, up]);
  }

  // Without a gap: one frame puts the alternate contact down and lifts the old one.
  method SwapAim(engine: TouchEngine, aim: AimController, dx: int, dy: int)
    returns (after: AimController, r: Result<bool, EngineError>)
    requires engine.Valid() && aim.Grounded(engine.contacts) && aim.spec.ValidFor(engine.injector.config)
    requires aim.active.Some?
    modifies engine, engine.injector, engine.injector.sink
    ensures engine.Valid() && after.spec == aim.spec && after.accumulator == aim.accumulator && after.ads == aim.ads
    ensures SameOutside(old(engine.contacts), engine.contacts, aim.Ids())
    ensures SentOn(old(engine.frames), engine.frames, aim.Ids())
    ensures r.Ok? ==>
              && after.Grounded(engine.contacts) && after.IsActive()
              && after.active == Some(aim.next) && after.next == aim.active.value
              && engine.contacts == (old(engine.contacts) - {aim.active.value})[aim.next := aim.Landing(dx, dy)]
    ensures Staged(r.Ok?, DeviceRefused(r), [1, -1], |old(engine.contacts)|, |engine.contacts|,
                   engine.injector.config.slotCount)
    ensures DeviceRefused(r) ==> !engine.injector.sink.reliable
  {
    hide TouchEngine.Valid, SentOn, Staged;
    after := aim;
    var outgoing, incoming := aim.active.value, aim.next;
    PairCounts(engine.contacts, outgoing, incoming, aim.spec.origin);
    var swapped := ExchangeContacts(engine, outgoing, incoming, aim.spec.origin);
    SentWider(old(engine.frames), engine.frames, {incoming, outgoing}, aim.Ids());
    StagedUpDown(swapped.Ok?, DeviceRefused(swapped), |old(engine.contacts)|, |engine.contacts|,
                 engine.injector.config.slotCount);
    if swapped.Err? {
      return after, Err(swapped.error);
    }
    after := aim.(active := Some(incoming), next := outgoing);
    ghost var between, contacts := engine.frames, engine.contacts;
    var moved := ApplyResidual(engine, aim, incoming, dx, dy);
    SentWider(between, engine.frames, {incoming}, aim.Ids());
    SentMore(old(engine.frames), between, engine.frames, aim.Ids());
    if moved.Err? {
      StagedRefused([1, -1], |old(engine.contacts)|, |engine.contacts|, engine.injector.config.slotCount);
      return after, Err(moved.error);
    }
    assert engine.contacts.Keys == contacts.Keys;
    return after, Ok(true);
  }

  // Hands the contact over to the alternate one, at once or after a gap.
  method RecenterAim(engine: TouchEngine, aim: AimController, dx: int, dy: int)
    returns (after: AimController, r: Result<bool, EngineError>)
    requires engine.Valid() && aim.Grounded(engine.contacts) && aim.spec.ValidFor(engine.injector.config)
    requires aim.active.Some?
    modifies engine, engine.injector, engine.injector.sink
    ensures engine.Valid() && after.spec == aim.spec && after.accumulator == aim.accumulator && after.ads == aim.ads
    ensures SameOutside(old(engine.contacts), engine.contacts, aim.Ids())
    ensures SentOn(old(engine.frames), engine.frames, aim.Ids())
    ensures r.Ok? ==> after.Grounded(engine.contacts) && after.IsActive()
    ensures r.Ok? && aim.spec.gap ==>
              && after.pending == Some(Pending(aim.next, aim.active.value, dx, dy))
              && engine.contacts == old(engine.contacts) - {aim.active.value}
    ensures r.Ok? && !aim.spec.gap ==>
              && after.active == Some(aim.next) && after.next == aim.active.value
              && engine.contacts == (old(engine.contacts) - {aim.active.value})[aim.next := aim.Landing(dx, dy)]
    ensures Staged(r.Ok?, DeviceRefused(r), aim.RecenterSteps(), |old(engine.contacts)|, |engine.contacts|,
                   engine.injector.config.slotCount)
    ensures DeviceRefused(r) ==> !engine.injector.sink.reliable
  {
    hide TouchEngine.Valid, SentOn, Staged;
    after := aim;
    var outgoing, incoming := aim.active.value, aim.next;
    if aim.spec.gap {
      var position := engine.contacts[outgoing];
      var lifted := engine.LiftContact(outgoing, Up);
      SentSingle(old(engine.frames), engine.frames, lifted.Ok?, outgoing, Up, position, aim.Ids());
      StagedOne(lifted.Ok?, DeviceRefused(lifted), -1, |old(engine.contacts)|, |engine.contacts|,
                engine.injector.config.slotCount);
      if lifted.Err? {
        return after, Err(lifted.error);
      }
      after := aim.(active := None, pending := Some(Pending(incoming, outgoing, dx, dy)));
      return after, Ok(true);
    }
    after, r := SwapAim(engine, aim, dx, dy);
  }

  // What motion of (x, y) pixels leads to during a pause: it adds up, and is made up for at the end.
  ghost predicate Waits(aim: AimController, x: int, y: int, due: bool, before: Contacts, after: AimController,
                        contacts: Contacts)
    requires aim.spec.region.NonEmpty() && aim.pending.Some?
  {
    var pending := aim.pending.value;
    var dx, dy := Saturate(pending.dx + x), Saturate(pending.dy + y);
    if due then
      && after.active == Some(pending.contact) && after.next == pending.previous
      && contacts == before[pending.contact := aim.Landing(dx, dy)]
    else after.pending == Some(Pending(pending.contact, pending.previous, dx, dy)) && contacts == before
  }

  // ... and otherwise: the contact goes as far as its region lets it, unless that is past the threshold.
  ghost predicate Arrives(aim: AimController, x: int, y: int, before: Contacts, after: AimController,
                          contacts: Contacts)
    requires aim.spec.region.NonEmpty() && aim.active.Some? && aim.active.value in before
  {
    var contact := aim.active.value;
    var target := aim.Target(before[contact], x, y);
    if target == before[contact] then after.active == aim.active && contacts == before
    else if !aim.TooFar(target) then after.active == aim.active && contacts == before[contact := target]
    else if aim.spec.gap then after.pending == Some(Pending(aim.next, contact, x, y)) && contacts == before - {contact}
    else
      && after.active == Some(aim.next) && after.next == contact
      && contacts == (before - {contact})[aim.next := aim.Landing(x, y)]
  }

  method MoveWaiting(engine: TouchEngine, aim: AimController, x: int, y: int, due: bool)
    returns (after: AimController, r: Result<bool, EngineError>)
    requires engine.Valid() && aim.Grounded(engine.contacts) && aim.spec.ValidFor(engine.injector.config)
    requires aim.pending.Some?
    modifies engine, engine.injector, engine.injector.sink
    ensures engine.Valid() && after.spec == aim.spec && after.accumulator == aim.accumulator && after.ads == aim.ads
    ensures SameOutside(old(engine.contacts), engine.contacts, aim.Ids())
    ensures SentOn(old(engine.frames), engine.frames, aim.Ids())
    ensures r.Ok? ==> after.Grounded(engine.contacts) && after.IsActive()
    ensures r.Ok? ==> Waits(aim, x, y, due, old(engine.contacts), after, engine.contacts)
    ensures Staged(r.Ok?, DeviceRefused(r), aim.TickSteps(due), |old(engine.contacts)|, |engine.contacts|,
                   engine.injector.config.slotCount)
    ensures DeviceRefused(r) ==> !engine.injector.sink.reliable
  {
    hide TouchEngine.Valid, SentOn, Staged, SameOutside, Region.Clamp, Offset;
    var pending := aim.pending.value;
    after := aim.(pending := Some(pending.(dx := Saturate(pending.dx + x), dy := Saturate(pending.dy + y))));
    after, r := TickAim(engine, after, due);
  }

  method MoveActive(engine: TouchEngine, aim: AimController, x: int, y: int)
    returns (after: AimController, r: Result<bool, EngineError>)
    requires engine.Valid() && aim.Grounded(engine.contacts) && aim.spec.ValidFor(engine.injector.config)
    requires aim.active.Some?
    modifies engine, engine.injector, engine.injector.sink
    ensures engine.Valid() && after.spec == aim.spec && after.accumulator == aim.accumulator && after.ads == aim.ads
    ensures SameOutside(old(engine.contacts), engine.contacts, aim.Ids())
    ensures SentOn(old(engine.frames), engine.frames, aim.Ids())
    ensures r.Ok? ==> after.Grounded(engine.contacts) && after.IsActive()
    ensures r.Ok? ==> Arrives(aim, x, y, old(engine.contacts), after, engine.contacts)
    ensures Staged(r.Ok?, DeviceRefused(r), aim.ArriveSteps(x, y, old(engine.contacts)[aim.active.value]),
                   |old(engine.contacts)|, |engine.contacts|, engine.injector.config.slotCount)
    ensures DeviceRefused(r) ==> !engine.injector.sink.reliable
  {
    hide TouchEngine.Valid, SentOn, Staged, PastThreshold, Offset, Region.Clamp, SameOutside;
    after := aim;
    SentNothing(engine.frames, aim.Ids());
    SameOutsideItself(engine.contacts, aim.Ids());
    StagedNone(|engine.contacts|, engine.injector.config.slotCount);
    var target := aim.spec.region.Clamp(Offset(engine.contacts[aim.active.value], x, y));
    if target == engine.contacts[aim.active.value] {
      return after, Ok(false);
    }
    if PastThreshold(aim.spec.region, aim.spec.origin, aim.spec.thresholdMilli, target) {
      after, r := RecenterAim(engine, after, x, y);
      return;
    }
    r := MoveTo(engine, aim, target);
  }

  // Moves the one contact that is down.
  method MoveTo(engine: TouchEngine, aim: AimController, target: Point) returns (r: Result<bool, EngineError>)
    requires engine.Valid() && aim.Grounded(engine.contacts) && aim.spec.ValidFor(engine.injector.config)
    requires aim.active.Some? && aim.spec.region.Contains(target)
    modifies engine, engine.injector, engine.injector.sink
    ensures engine.Valid() && (r.Ok? ==> r.value && aim.Grounded(engine.contacts))
    ensures SameOutside(old(engine.contacts), engine.contacts, aim.Ids())
    ensures SentOn(old(engine.frames), engine.frames, aim.Ids())
    ensures r.Ok? ==> engine.contacts == old(engine.contacts)[aim.active.value := target]
    ensures Staged(r.Ok?, DeviceRefused(r), [], |old(engine.contacts)|, |engine.contacts|,
                   engine.injector.config.slotCount)
    ensures DeviceRefused(r) ==> !engine.injector.sink.reliable
  {
    hide TouchEngine.Valid, SentOn, Staged;
    var contact := aim.active.value;
    var moved := engine.MoveContact(contact, target);
    SentSingle(old(engine.frames), engine.frames, moved.Ok?, contact, Move, target, aim.Ids());
    if moved.Err? {
      StagedRefused([], |old(engine.contacts)|, |engine.contacts|, engine.injector.config.slotCount);
      return Err(moved.error);
    }
    assert engine.contacts.Keys == old(engine.contacts).Keys;
    StagedNone(|engine.contacts|, engine.injector.config.slotCount);
    return Ok(true);
  }

  // What a motion leads to.
  ghost predicate MovedBy(aim: AimController, dx: int, dy: int, due: bool, before: Contacts, after: AimController,
                          contacts: Contacts) {
    if dx == 0 == dy || aim.Idle() then after == aim && contacts == before
    else
      var scaled := aim.accumulator.Scaling(dx, dy, aim.Scale());
      && after.spec == aim.spec && after.ads == aim.ads && after.accumulator == scaled.accumulator
      && aim.spec.region.NonEmpty()
      && if aim.pending.Some? then Waits(aim, scaled.x, scaled.y, due, before, after, contacts)
         else
           && aim.active.Some? && aim.active.value in before
           && Arrives(aim, scaled.x, scaled.y, before, after, contacts)
  }

  // Some of the motion becomes pixels and less than one is carried, unless 64 bits are not enough: under
  // the plain sensitivity, or in sights under its product with the multiplier.
  ghost predicate Accounted(aim: AimController, carry: int, delta: int, pixels: int, carried: int) {
    var plain, sights := aim.spec.sensitivity, aim.spec.multiplier;
    if aim.ads && sights.Some? then
      Conserved(carry, delta, plain.numerator * sights.value.numerator, plain.denominator * sights.value.denominator,
                pixels, carried)
    else Conserved(carry, delta, plain.numerator, plain.denominator, pixels, carried)
  }

  ghost predicate Conserved(carry: int, delta: int, numerator: int, denominator: int, pixels: int, carried: int) {
    numerator <= I64_MAX && denominator <= I64_MAX && AimMotion.Fits(carry, delta, numerator) ==>
      pixels * denominator + carried == delta * numerator + carry && -denominator < carried < denominator
  }

  lemma ScalingAccounts(aim: AimController, dx: int, dy: int)
    requires aim.Exact()
    ensures var before, scaled := aim.accumulator, aim.accumulator.Scaling(dx, dy, aim.Scale());
            && Accounted(aim, before.carryX, dx, scaled.x, scaled.accumulator.carryX)
            && Accounted(aim, before.carryY, dy, scaled.y, scaled.accumulator.carryY)
  {
    hide AimMotion.Step, AimMotion.Fits, Saturate;
    var scale := aim.Scale();
    StepConserves(aim.accumulator.carryX, dx, scale.numerator, scale.denominator);
    StepConserves(aim.accumulator.carryY, dy, scale.numerator, scale.denominator);
    if aim.ads && aim.spec.multiplier.Some? {
      SaturateFits(aim.spec.sensitivity.numerator, aim.spec.multiplier.value.numerator);
      SaturateFits(aim.spec.sensitivity.denominator, aim.spec.multiplier.value.denominator);
    }
  }

  lemma SaturateFits(a: Positive, b: Positive)
    ensures a * b <= I64_MAX ==> Saturate(a * b) == a * b
  {
    ProductBound(a, U32_LIMIT, b, U32_LIMIT);
  }

  // move_by: scales the motion, and moves the contact, or adds to the motion of a pause, or recentres.
  method MoveAim(engine: TouchEngine, aim: AimController, dx: int, dy: int, due: bool)
    returns (after: AimController, r: Result<bool, EngineError>)
    requires engine.Valid() && aim.Grounded(engine.contacts) && aim.spec.ValidFor(engine.injector.config)
    modifies engine, engine.injector, engine.injector.sink
    ensures engine.Valid() && after.spec == aim.spec && (aim.Exact() ==> after.Exact())
    ensures SameOutside(old(engine.contacts), engine.contacts, aim.Ids())
    ensures SentOn(old(engine.frames), engine.frames, aim.Ids())
    ensures r.Ok? ==> after.Grounded(engine.contacts) && (after.IsActive() <==> aim.IsActive())
    ensures dx == 0 == dy || aim.Idle() ==> r == Ok(false) && after == aim && engine.contacts == old(engine.contacts)
    // Whatever else happens, motion while active goes through the accumulator.
    ensures var scaled := aim.accumulator.Scaling(dx, dy, aim.Scale());
            (dx != 0 || dy != 0) && aim.IsActive() ==> after.accumulator == scaled.accumulator
    ensures r.Ok? ==> MovedBy(aim, dx, dy, due, old(engine.contacts), after, engine.contacts)
    // Pixels and remainders account for all of the motion.
    ensures var scaled := aim.accumulator.Scaling(dx, dy, aim.Scale());
            aim.Exact() ==>
              && Accounted(aim, aim.accumulator.carryX, dx, scaled.x, scaled.accumulator.carryX)
              && Accounted(aim, aim.accumulator.carryY, dy, scaled.y, scaled.accumulator.carryY)
    ensures Staged(r.Ok?, DeviceRefused(r), aim.MoveSteps(dx, dy, due, AimPosition(aim, old(engine.contacts))),
                   |old(engine.contacts)|, |engine.contacts|, engine.injector.config.slotCount)
    ensures DeviceRefused(r) ==> !engine.injector.sink.reliable
  {
    hide TouchEngine.Valid, SentOn, Staged, SameOutside, Waits, Arrives, AimController.ArriveSteps, InForce;
    hide ScaleAccumulator.Scaling, Accounted;
    SentNothing(engine.frames, aim.Ids());
    SameOutsideItself(engine.contacts, aim.Ids());
    StagedNone(|engine.contacts|, engine.injector.config.slotCount);
    if aim.Exact() {
      ScalingAccounts(aim, dx, dy);
    }
    hide ScaleAccumulator.Below;
    if dx == 0 == dy || !aim.IsActive() {
      return aim, Ok(false);
    }
    var scale := aim.Scale();
    var x, y, accumulator := aim.accumulator.Scale(dx, dy, scale.numerator, scale.denominator);
    var scaled := aim.(accumulator := accumulator);
    if aim.pending.Some? {
      after, r := MoveWaiting(engine, scaled, x, y, due);
      WaitsAlike(aim, scaled, x, y, due, old(engine.contacts), after, engine.contacts);
    } else {
      after, r := MoveActive(engine, scaled, x, y);
      ArrivesAlike(aim, scaled, x, y, old(engine.contacts), after, engine.contacts);
    }
  }

  // What happens does not depend on the remainders any more.
  lemma WaitsAlike(aim: AimController, scaled: AimController, x: int, y: int, due: bool, before: Contacts,
                   after: AimController, contacts: Contacts)
    requires scaled == aim.(accumulator := scaled.accumulator)
    requires aim.spec.region.NonEmpty() && aim.pending.Some?
    ensures Waits(scaled, x, y, due, before, after, contacts) <==> Waits(aim, x, y, due, before, after, contacts)
  {
  }

  lemma ArrivesAlike(aim: AimController, scaled: AimController, x: int, y: int, before: Contacts, after: AimController,
                     contacts: Contacts)
    requires scaled == aim.(accumulator := scaled.accumulator)
    requires aim.spec.region.NonEmpty() && aim.active.Some? && aim.active.value in before
    ensures Arrives(scaled, x, y, before, after, contacts) <==> Arrives(aim, x, y, before, after, contacts)
    ensures scaled.ArriveSteps(x, y, before[aim.active.value]) == aim.ArriveSteps(x, y, before[aim.active.value])
  {
  }

  // ---------------------------------------------------------------------------------------
  // What the runtime asks of a controller

  datatype AimCommand = Toggle | Activate | Deactivate | MoveBy(dx: int, dy: int, due: bool) | TickBy(due: bool) {
    function ActiveAfter(active: bool): bool {
      match this
      case Toggle => !active
      case Activate => true
      case Deactivate => false
      case _ => active
    }

    function Steps(aim: AimController, position: Option<Point>): seq<int>
      requires aim.spec.region.NonEmpty()
    {
      match this
      case Toggle => if aim.IsActive() then aim.DeactivateSteps() else aim.ActivateSteps()
      case Activate => aim.ActivateSteps()
      case Deactivate => aim.DeactivateSteps()
      case MoveBy(dx, dy, due) => aim.MoveSteps(dx, dy, due, position)
      case TickBy(due) => aim.TickSteps(due)
    }
  }

  // One slot is room enough for any command, and switching off needs none.
  lemma RoomForCommand(command: AimCommand, aim: AimController, position: Option<Point>, count: nat, capacity: nat)
    requires aim.spec.region.NonEmpty()
    ensures count < capacity || command.Deactivate? ==> !Overflows(count, command.Steps(aim, position), capacity)
  {
    hide AimController.TooFar, AimController.Target;
    var steps := command.Steps(aim, position);
    assert steps == [] || steps == [1] || steps == [-1] || steps == [1, -1];
    assert [1][1..] == [] && [-1][1..] == [] && [1, -1][1..] == [-1];
  }

  // One of the two contacts is always up.
  lemma OneIsUp(aim: AimController, contacts: Contacts) returns (contact: ContactId)
    requires aim.Grounded(contacts)
    ensures contact in aim.Ids() && contact !in contacts
  {
    contact := if aim.spec.contact in contacts then aim.spec.alternate else aim.spec.contact;
  }

  // The contacts of a controller that are down.
  function Own(aim: AimController, contacts: Contacts): Contacts {
    map c | c in contacts && c in aim.Ids() :: contacts[c]
  }

  // What a command leads to, on the controller's own contacts.
  ghost predicate Obeyed(command: AimCommand, aim: AimController, before: Contacts, after: AimController,
                         contacts: Contacts) {
    match command
    case Toggle => if aim.IsActive() then Ended(after, contacts) else Begun(after, contacts)
    case Activate => if aim.IsActive() then after == aim && contacts == before else Begun(after, contacts)
    case Deactivate => Ended(after, contacts)
    case MoveBy(dx, dy, due) => MovedBy(aim, dx, dy, due, before, after, contacts)
    case TickBy(due) => TickedBy(aim, due, before, after, contacts)
  }

  ghost predicate Begun(after: AimController, contacts: Contacts) {
    after.active == Some(after.spec.contact) && contacts == map[after.spec.contact := after.spec.origin]
  }

  ghost predicate Ended(after: AimController, contacts: Contacts) {
    after.Idle() && !after.ads && after.accumulator == NO_REMAINDER && contacts == map[]
  }

  // A pause that is over ends where the motion made up in it leads from the origin.
  ghost predicate TickedBy(aim: AimController, due: bool, before: Contacts, after: AimController, contacts: Contacts) {
    if due && aim.pending.Some? then
      var pending := aim.pending.value;
      && after.active == Some(pending.contact) && after.next == pending.previous && after.pending.None?
      && aim.spec.region.NonEmpty()
      && contacts == before[pending.contact := aim.Landing(pending.dx, pending.dy)]
    else after == aim && contacts == before
  }

  lemma OwnPut(aim: AimController, contacts: Contacts, contact: ContactId, position: Point)
    requires contact in aim.Ids()
    ensures Own(aim, contacts[contact := position]) == Own(aim, contacts)[contact := position]
  {
  }

  lemma OwnLifted(aim: AimController, contacts: Contacts, contact: ContactId)
    ensures Own(aim, contacts - {contact}) == Own(aim, contacts) - {contact}
  {
  }

  // Read on its own contacts only.
  lemma MovedOwn(aim: AimController, dx: int, dy: int, due: bool, before: Contacts, after: AimController,
                 contacts: Contacts)
    requires aim.Grounded(before) && MovedBy(aim, dx, dy, due, before, after, contacts)
    ensures MovedBy(aim, dx, dy, due, Own(aim, before), after, Own(aim, contacts))
  {
    hide AimController.TooFar, AimController.Target, InForce, ScaleAccumulator.Scaling;
    if (dx != 0 || dy != 0) && !aim.Idle() {
      var scaled := aim.accumulator.Scaling(dx, dy, aim.Scale());
      if aim.pending.Some? {
        var pending := aim.pending.value;
        var x, y := Saturate(pending.dx + scaled.x), Saturate(pending.dy + scaled.y);
        OwnPut(aim, before, pending.contact, aim.Landing(x, y));
      } else {
        var contact := aim.active.value;
        OwnPut(aim, before, contact, aim.Target(before[contact], scaled.x, scaled.y));
        OwnLifted(aim, before, contact);
        OwnPut(aim, before - {contact}, aim.next, aim.Landing(scaled.x, scaled.y));
      }
    }
  }

  lemma BegunOwn(aim: AimController, before: Contacts, after: AimController, contacts: Contacts)
    requires aim.Grounded(before) && !aim.IsActive() && after.spec == aim.spec
    requires after.active == Some(aim.spec.contact) && contacts == before[aim.spec.contact := aim.spec.origin]
    ensures Begun(after, Own(aim, contacts))
  {
  }

  lemma EndedOwn(aim: AimController, after: AimController, contacts: Contacts)
    requires after.Grounded(contacts) && after.Idle() && after.spec == aim.spec
    ensures Own(aim, contacts) == map[]
  {
  }

  lemma TickedOwn(aim: AimController, due: bool, before: Contacts, after: AimController, contacts: Contacts)
    requires aim.Grounded(before) && TickedBy(aim, due, before, after, contacts)
    ensures TickedBy(aim, due, Own(aim, before), after, Own(aim, contacts))
  {
    if due && aim.pending.Some? {
      OwnPut(aim, before, aim.pending.value.contact, aim.Landing(aim.pending.value.dx, aim.pending.value.dy));
    }
  }

  method RunAimCommand(engine: TouchEngine, aim: AimController, command: AimCommand)
    returns (after: AimController, r: Result<bool, EngineError>)
    requires engine.Valid() && aim.Grounded(engine.contacts) && aim.spec.ValidFor(engine.injector.config)
    modifies engine, engine.injector, engine.injector.sink
    ensures engine.Valid() && after.spec == aim.spec && (aim.Exact() ==> after.Exact())
    ensures SameOutside(old(engine.contacts), engine.contacts, aim.Ids())
    ensures SentOn(old(engine.frames), engine.frames, aim.Ids())
    ensures r.Ok? ==> after.Grounded(engine.contacts) && after.IsActive() == command.ActiveAfter(aim.IsActive())
    ensures r.Ok? ==> Obeyed(command, aim, Own(aim, old(engine.contacts)), after, Own(aim, engine.contacts))
    ensures Staged(r.Ok?, DeviceRefused(r), command.Steps(aim, AimPosition(aim, old(engine.contacts))),
                   |old(engine.contacts)|, |engine.contacts|, engine.injector.config.slotCount)
    ensures DeviceRefused(r) ==> !engine.injector.sink.reliable
  {
    hide TouchEngine.Valid, SentOn, Staged, SameOutside, MovedBy, Begun, AimController.MoveSteps, Own;
    hide AimController.Grounded, AimController.Landing;
    hide AimController.ActivateSteps, AimController.DeactivateSteps, AimController.TickSteps;
    hide ScaleAccumulator.Below, InForce;
    match command
    case Toggle =>
      after, r := ToggleAim(engine, aim);
      if r.Ok? {
        if aim.IsActive() {
          EndedOwn(aim, after, engine.contacts);
        } else {
          BegunOwn(aim, old(engine.contacts), after, engine.contacts);
        }
      }
    case Activate =>
      after, r := ActivateAim(engine, aim);
      if r.Ok? && !aim.IsActive() {
        BegunOwn(aim, old(engine.contacts), after, engine.contacts);
      }
    case Deactivate =>
      after, r := DeactivateAim(engine, aim);
      if r.Ok? {
        EndedOwn(aim, after, engine.contacts);
      }
    case MoveBy(dx, dy, due) =>
      after, r := MoveAim(engine, aim, dx, dy, due);
      if r.Ok? {
        MovedOwn(aim, dx, dy, due, old(engine.contacts), after, engine.contacts);
      }
    case TickBy(due) =>
      after, r := TickAim(engine, aim, due);
      if r.Ok? {
        TickedOwn(aim, due, old(engine.contacts), after, engine.contacts);
      }
  }
}
