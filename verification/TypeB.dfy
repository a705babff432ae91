// The translation of a touch frame into one Linux multi-touch "Protocol Type B" batch
// (crates/wroid-inject/src/translate.rs), and a receiver that follows the kernel document
// "Multi-touch (MT) Protocol", section "Protocol Example B".

module TypeB {
  import opened Wrappers
  import opened Touch

  datatype Code = BtnTouch | AbsX | AbsY | MtSlot | MtTrackingId | MtPositionX | MtPositionY

  datatype LinuxEvent = LinuxEvent(code: Code, value: int)

  // `value as i32` in Rust: wraps at 2^31.
  function AsI32(value: U32): int {
    if value < I32_LIMIT then value else value - U32_LIMIT
  }

  // ---------------------------------------------------------------------------------------
  // The batch inject_frame builds.

  // Slots are looked up in the state before or after the whole frame, never in between.
  function TranslatedSlot(current: SlotState, next: SlotState, event: TouchEvent): Option<nat>
    requires current.WellFormed() && next.WellFormed()
  {
    match event.phase
    case Down => next.ActiveSlot(event.contact)
    case Move =>
      var slot := current.ActiveSlot(event.contact);
      if slot.Some? then slot else next.ActiveSlot(event.contact)
    case _ => current.ActiveSlot(event.contact)
  }

  function PositionEvents(position: Point): seq<LinuxEvent> {
    [LinuxEvent(MtPositionX, AsI32(position.x)), LinuxEvent(MtPositionY, AsI32(position.y))]
  }

  function EventBatch(slot: nat, event: TouchEvent): seq<LinuxEvent> {
    [LinuxEvent(MtSlot, slot)] +
    match event.phase
    case Down => [LinuxEvent(MtTrackingId, event.contact)] + PositionEvents(event.position)
    case Move => PositionEvents(event.position)
    case _ => [LinuxEvent(MtTrackingId, -1)]
  }

  function TouchHeader(current: SlotState, next: SlotState): seq<LinuxEvent> {
    if current.activeCount == 0 && next.activeCount > 0 then [LinuxEvent(BtnTouch, 1)]
    else if current.activeCount > 0 && next.activeCount == 0 then [LinuxEvent(BtnTouch, 0)]
    else []
  }

  function PrimaryTrailer(next: SlotState): seq<LinuxEvent>
    requires next.WellFormed()
  {
    match next.PrimaryPosition()
    case None => []
    case Some(p) => [LinuxEvent(AbsX, AsI32(p.x)), LinuxEvent(AbsY, AsI32(p.y))]
  }

  function Translate(current: SlotState, next: SlotState, frame: Frame): Result<seq<LinuxEvent>, FrameError>
    requires current.WellFormed() && next.WellFormed()
    decreases |frame|
  {
    if frame == [] then Ok([])
    else
      match TranslatedSlot(current, next, frame[0])
      case None => Err(ContactNotActive(frame[0].contact))
      case Some(slot) =>
        match Translate(current, next, frame[1..])
        case Err(error) => Err(error)
        case Ok(rest) => Ok(EventBatch(slot, frame[0]) + rest)
  }

  datatype Planned = Planned(next: SlotState, batch: seq<LinuxEvent>)

  // Everything inject_frame decides before it talks to the device.
  function PlanBatch(config: Config, state: SlotState, frame: Frame): (r: Result<Planned, FrameError>)
    requires state.WellFormed()
  {
    if frame == [] then Err(EmptyFrame)
    else
      match NextState(config, state, frame)
      case Err(error) => Err(error)
      case Ok(next) =>
        match Translate(state, next, frame)
        case Err(error) => Err(error)
        case Ok(body) => Ok(Planned(next, TouchHeader(state, next) + body + PrimaryTrailer(next)))
  }

  // ---------------------------------------------------------------------------------------
  // The receiver.

  datatype Tracked = Tracked(id: int, x: int, y: int)

  datatype Receiver = Receiver(current: int, slots: seq<Tracked>, touch: int, x: int, y: int)

  function FreshReceiver(config: Config): Receiver {
    Receiver(0, seq(config.slotCount, i => Tracked(-1, 0, 0)), 0, 0, 0)
  }

  function Feed(receiver: Receiver, event: LinuxEvent): Receiver {
    var k := receiver.current;
    match event.code
    case BtnTouch => receiver.(touch := event.value)
    case AbsX => receiver.(x := event.value)
    case AbsY => receiver.(y := event.value)
    case MtSlot => receiver.(current := event.value)
    case MtTrackingId =>
      if 0 <= k < |receiver.slots| then receiver.(slots := receiver.slots[k := receiver.slots[k].(id := event.value)])
      else receiver
    case MtPositionX =>
      if 0 <= k < |receiver.slots| then receiver.(slots := receiver.slots[k := receiver.slots[k].(x := event.value)])
      else receiver
    case MtPositionY =>
      if 0 <= k < |receiver.slots| then receiver.(slots := receiver.slots[k := receiver.slots[k].(y := event.value)])
      else receiver
  }

  function FeedAll(receiver: Receiver, batch: seq<LinuxEvent>): Receiver
    decreases |batch|
  {
    if batch == [] then receiver else FeedAll(Feed(receiver, batch[0]), batch[1..])
  }

  function Replay(config: Config, batches: seq<seq<LinuxEvent>>): Receiver
    decreases |batches|
  {
    if batches == [] then FreshReceiver(config)
    else FeedAll(Replay(config, batches[..|batches| - 1]), batches[|batches| - 1])
  }

  // The receiver's slots hold exactly the contacts of the table.
  ghost predicate SlotsAgree(state: SlotState, receiver: Receiver) {
    && state.slotCount == |receiver.slots| <= |state.slots|
    && forall i | 0 <= i < state.slotCount ::
         match state.slots[i].contact
         case None => receiver.slots[i].id == -1
         case Some(c) => receiver.slots[i] == Tracked(c, state.slots[i].x, state.slots[i].y)
  }

  // The first tracked slot of a receiver.
  ghost predicate IsFirst(receiver: Receiver, i: int) {
    && 0 <= i < |receiver.slots| && receiver.slots[i].id != -1
    && forall j | 0 <= j < i :: receiver.slots[j].id == -1
  }

  // ... BTN_TOUCH says whether any contact is down, and the single-touch position is that of the first
  // tracked slot.
  ghost predicate Agrees(state: SlotState, receiver: Receiver) {
    && SlotsAgree(state, receiver)
    && receiver.touch == (if state.activeCount > 0 then 1 else 0)
    && forall i | IsFirst(receiver, i) :: receiver.x == receiver.slots[i].x && receiver.y == receiver.slots[i].y
  }

  // That is the position the injector sends.
  lemma PrimaryIsFirst(state: SlotState, receiver: Receiver)
    requires state.WellFormed() && SlotsAgree(state, receiver)
    ensures (forall i | IsFirst(receiver, i) :: receiver.x == receiver.slots[i].x && receiver.y == receiver.slots[i].y)
       <==> match state.PrimaryPosition()
            case None => true
            case Some(p) => receiver.x == p.x && receiver.y == p.y
  {
    var first := FirstActive(state.slots, 0, state.slotCount);
    if first.Some? {
      assert IsFirst(receiver, first.value);
    }
  }

  // ---------------------------------------------------------------------------------------
  // Replaying batches.

  lemma {:induction false} FeedAppend(receiver: Receiver, front: seq<LinuxEvent>, back: seq<LinuxEvent>)
    ensures FeedAll(receiver, front + back) == FeedAll(FeedAll(receiver, front), back)
    decreases |front|
  {
    if front == [] {
      assert front + back == back;
    } else {
      assert (front + back)[0] == front[0] && (front + back)[1..] == front[1..] + back;
      FeedAppend(Feed(receiver, front[0]), front[1..], back);
    }
  }

  function Unrolled(receiver: Receiver, slot: nat, event: TouchEvent): Receiver {
    var at := Feed(receiver, LinuxEvent(MtSlot, slot));
    match event.phase
    case Down =>
      Feed(Feed(Feed(at, LinuxEvent(MtTrackingId, event.contact)), LinuxEvent(MtPositionX, AsI32(event.position.x))),
           LinuxEvent(MtPositionY, AsI32(event.position.y)))
    case Move =>
      Feed(Feed(at, LinuxEvent(MtPositionX, AsI32(event.position.x))), LinuxEvent(MtPositionY, AsI32(event.position.y)))
    case _ => Feed(at, LinuxEvent(MtTrackingId, -1))
  }

  lemma FeedTwo(receiver: Receiver, a: LinuxEvent, b: LinuxEvent)
    ensures FeedAll(receiver, [a, b]) == Feed(Feed(receiver, a), b)
  {
    assert [a, b][1..] == [b];
    assert [b][1..] == [];
    FeedAppend(receiver, [a], [b]);
  }

  lemma FeedEvent(receiver: Receiver, slot: nat, event: TouchEvent)
    ensures FeedAll(receiver, EventBatch(slot, event)) == Unrolled(receiver, slot, event)
  {
    var head := [LinuxEvent(MtSlot, slot)];
    var at := Feed(receiver, head[0]);
    assert FeedAll(receiver, head) == at by { assert head[1..] == []; }
    var x, y := LinuxEvent(MtPositionX, AsI32(event.position.x)), LinuxEvent(MtPositionY, AsI32(event.position.y));
    match event.phase
    case Down =>
      var id := [LinuxEvent(MtTrackingId, event.contact)];
      assert FeedAll(at, id) == Feed(at, id[0]) by { assert id[1..] == []; }
      FeedAppend(receiver, head, id + PositionEvents(event.position));
      FeedAppend(at, id, PositionEvents(event.position));
      FeedTwo(Feed(at, id[0]), x, y);
    case Move =>
      FeedAppend(receiver, head, PositionEvents(event.position));
      FeedTwo(at, x, y);
    case _ =>
      FeedTwo(receiver, head[0], LinuxEvent(MtTrackingId, -1));
      assert EventBatch(slot, event) == [head[0], LinuxEvent(MtTrackingId, -1)];
  }

  // ---------------------------------------------------------------------------------------
  // Simulation.

  // One event, sent to the slot the table really uses, keeps the slots in agreement.
  lemma EventKeepsAgreement(config: Config, state: SlotState, receiver: Receiver, event: TouchEvent, slot: nat)
    requires config.Valid() && state.Valid(config) && ApplyEvent(config, state, event).Ok?
    requires SlotsAgree(state, receiver)
    requires slot == TouchedSlot(state, event)
    ensures SlotsAgree(ApplyEvent(config, state, event).value, FeedAll(receiver, EventBatch(slot, event)))
    ensures FeedAll(receiver, EventBatch(slot, event)).touch == receiver.touch
  {
    AppliedWrites(config, state, event);
    FeedEvent(receiver, slot, event);
    var next, after := ApplyEvent(config, state, event).value, Unrolled(receiver, slot, event);
    assert after.slots == receiver.slots[slot := after.slots[slot]];
  }

  lemma FoldOne(config: Config, state: SlotState, event: TouchEvent)
    requires state.WellFormed()
    ensures NextState(config, state, [event]) == ApplyEvent(config, state, event)
  {
  }

  // The fold, cut at event i.
  lemma FoldAt(config: Config, current: SlotState, frame: Frame, i: nat, middle: SlotState)
    requires current.Valid(config) && i < |frame| && NextState(config, current, frame).Ok?
    requires NextState(config, current, frame[..i]) == Ok(middle) && middle.Valid(config)
    ensures ApplyEvent(config, middle, frame[i]).Ok?
    ensures ApplyEvent(config, middle, frame[i]).value.Valid(config)
    ensures NextState(config, current, frame[..i + 1]) == ApplyEvent(config, middle, frame[i])
    ensures NextState(config, ApplyEvent(config, middle, frame[i]).value, frame[i + 1..])
            == NextState(config, current, frame)
    ensures NextState(config, current, frame).value.Valid(config)
  {
    FoldOne(config, middle, frame[i]);
    assert frame[..i + 1] == frame[..i] + [frame[i]];
    NextStateSplit(config, current, frame[..i], [frame[i]]);
    assert frame == frame[..i + 1] + frame[i + 1..];
    NextStateSplit(config, current, frame[..i + 1], frame[i + 1..]);
    AppliedValid(config, middle, frame[i]);
    FoldValid(config, current, frame);
  }

  lemma AppliedValid(config: Config, state: SlotState, event: TouchEvent)
    requires state.Valid(config)
    ensures ApplyEvent(config, state, event).Ok? ==> ApplyEvent(config, state, event).value.Valid(config)
  {
    StepRefines(config, state, event);
  }

  lemma FoldValid(config: Config, state: SlotState, frame: Frame)
    requires state.Valid(config)
    ensures NextState(config, state, frame).Ok? ==> NextState(config, state, frame).value.Valid(config)
  {
    NextStateRefines(config, state, frame);
  }

  // Looking the slot up before or after the whole frame finds the slot the fold uses at event i.
  lemma TranslatedSlotIsTouched(config: Config, current: SlotState, frame: Frame, i: nat, middle: SlotState)
    requires current.Valid(config) && Orderly(frame) && i < |frame|
    requires NextState(config, current, frame).Ok?
    requires NextState(config, current, frame[..i]) == Ok(middle) && middle.Valid(config)
    ensures TranslatedSlot(current, NextState(config, current, frame).value, frame[i])
         == Some(TouchedSlot(middle, frame[i]))
  {
    FoldAt(config, current, frame, i, middle);
    AppliedWrites(config, middle, frame[i]);
    if frame[i].phase.Lifts() {
      LiftFoundBefore(config, current, frame, i, middle);
    } else if frame[i].phase.Down? || current.ActiveSlot(frame[i].contact).None? {
      FoundAfter(config, current, frame, i, middle);
    } else {
      MoveFoundBefore(config, current, frame, i, middle);
    }
  }

  lemma LiftFoundBefore(config: Config, current: SlotState, frame: Frame, i: nat, middle: SlotState)
    requires current.Valid(config) && middle.Valid(config) && Orderly(frame) && i < |frame|
    requires NextState(config, current, frame[..i]) == Ok(middle)
    requires frame[i].phase.Lifts() && middle.ActiveSlot(frame[i].contact).Some?
    ensures current.ActiveSlot(frame[i].contact) == middle.ActiveSlot(frame[i].contact)
  {
    var id := frame[i].contact;
    var k := middle.ActiveSlot(id).value;
    Originates(config, current, frame[..i], id, k);
    SlotIsUnique(config, current, id, k);
  }

  lemma MoveFoundBefore(config: Config, current: SlotState, frame: Frame, i: nat, middle: SlotState)
    requires current.Valid(config) && middle.Valid(config) && Orderly(frame) && i < |frame|
    requires NextState(config, current, frame[..i]) == Ok(middle)
    requires frame[i].phase.Move? && current.ActiveSlot(frame[i].contact).Some?
    ensures current.ActiveSlot(frame[i].contact) == middle.ActiveSlot(frame[i].contact)
  {
    var id := frame[i].contact;
    var k := current.ActiveSlot(id).value;
    Persists(config, current, frame[..i], id, k);
    SlotIsUnique(config, middle, id, k);
  }

  lemma FoundAfter(config: Config, current: SlotState, frame: Frame, i: nat, middle: SlotState)
    requires current.Valid(config) && middle.Valid(config) && Orderly(frame) && i < |frame|
    requires NextState(config, current, frame).Ok? && NextState(config, current, frame[..i]) == Ok(middle)
    requires frame[i].phase.Down? || (frame[i].phase.Move? && current.ActiveSlot(frame[i].contact).None?)
    ensures NextState(config, current, frame).value.ActiveSlot(frame[i].contact)
         == Some(TouchedSlot(middle, frame[i]))
  {
    var id, k := frame[i].contact, TouchedSlot(middle, frame[i]);
    FoldAt(config, current, frame, i, middle);
    AppliedWrites(config, middle, frame[i]);
    if frame[i].phase.Move? {
      DownedBefore(config, current, frame[..i], id, k);
    }
    Persists(config, ApplyEvent(config, middle, frame[i]).value, frame[i + 1..], id, k);
    SlotIsUnique(config, NextState(config, current, frame).value, id, k);
  }

  // A contact active now but not at the start was put down on the way.
  lemma DownedBefore(config: Config, current: SlotState, front: Frame, id: ContactId, k: nat)
    requires current.Valid(config) && NextState(config, current, front).Ok?
    requires current.ActiveSlot(id).None?
    requires k < current.slotCount && NextState(config, current, front).value.slots[k].contact == Some(id)
    ensures exists j :: 0 <= j < |front| && front[j].contact == id && front[j].phase.Down?
  {
    if forall j | 0 <= j < |front| :: front[j].contact == id ==> !front[j].phase.Down? {
      Originates(config, current, front, id, k);
    }
  }

  lemma {:induction false} SuffixKeepsAgreement(config: Config, current: SlotState, frame: Frame, i: nat,
                                                middle: SlotState, receiver: Receiver)
    requires config.Valid() && current.Valid(config) && Orderly(frame) && i <= |frame|
    requires NextState(config, current, frame).Ok?
    requires NextState(config, current, frame[..i]) == Ok(middle) && middle.Valid(config)
    requires SlotsAgree(middle, receiver)
    ensures var next := NextState(config, current, frame).value;
            && Translate(current, next, frame[i..]).Ok?
            && var after := FeedAll(receiver, Translate(current, next, frame[i..]).value);
               && SlotsAgree(next, after)
               && after.touch == receiver.touch
    decreases |frame| - i
  {
    var next := NextState(config, current, frame).value;
    if i == |frame| {
      assert frame[..i] == frame;
    } else {
      FoldAt(config, current, frame, i, middle);
      TranslatedSlotIsTouched(config, current, frame, i, middle);
      var slot := TouchedSlot(middle, frame[i]);
      EventKeepsAgreement(config, middle, receiver, frame[i], slot);
      var step := FeedAll(receiver, EventBatch(slot, frame[i]));
      SuffixKeepsAgreement(config, current, frame, i + 1, ApplyEvent(config, middle, frame[i]).value, step);
      TranslateStep(current, next, frame, i, slot);
      FeedAppend(receiver, EventBatch(slot, frame[i]), Translate(current, next, frame[i + 1..]).value);
    }
  }

  lemma TranslateStep(current: SlotState, next: SlotState, frame: Frame, i: nat, slot: nat)
    requires current.WellFormed() && next.WellFormed() && i < |frame|
    requires TranslatedSlot(current, next, frame[i]) == Some(slot)
    requires Translate(current, next, frame[i + 1..]).Ok?
    ensures Translate(current, next, frame[i..])
         == Ok(EventBatch(slot, frame[i]) + Translate(current, next, frame[i + 1..]).value)
  {
  }

  lemma HeaderSetsTouch(config: Config, state: SlotState, next: SlotState, receiver: Receiver)
    requires state.Valid(config) && Agrees(state, receiver)
    ensures var after := FeedAll(receiver, TouchHeader(state, next));
            && SlotsAgree(state, after)
            && after.touch == (if next.activeCount > 0 then 1 else 0)
  {
  }

  lemma TrailerSetsPrimary(config: Config, next: SlotState, receiver: Receiver)
    requires config.Valid() && next.Valid(config) && SlotsAgree(next, receiver)
    requires receiver.touch == (if next.activeCount > 0 then 1 else 0)
    ensures Agrees(next, FeedAll(receiver, PrimaryTrailer(next)))
  {
    var trailer := PrimaryTrailer(next);
    if next.PrimaryPosition().Some? {
      FeedTwo(receiver, trailer[0], trailer[1]);
    }
    PrimaryIsFirst(next, FeedAll(receiver, trailer));
  }

  // One accepted frame: the batch exists, and replaying it takes a receiver that agrees with the
  // old table to one that agrees with the new table.
  lemma BatchSimulates(config: Config, state: SlotState, frame: Frame, receiver: Receiver)
    requires config.Valid() && state.Valid(config) && Orderly(frame) && frame != []
    requires NextState(config, state, frame).Ok?
    requires Agrees(state, receiver)
    ensures PlanBatch(config, state, frame).Ok?
    ensures var planned := PlanBatch(config, state, frame).value;
            && planned.next == NextState(config, state, frame).value
            && planned.next.Valid(config)
            && Agrees(planned.next, FeedAll(receiver, planned.batch))
  {
    var next := NextState(config, state, frame).value;
    NextStateRefines(config, state, frame);
    var header, trailer := TouchHeader(state, next), PrimaryTrailer(next);
    HeaderSetsTouch(config, state, next, receiver);
    assert frame[..0] == [] && frame[0..] == frame;
    assert NextState(config, state, []) == Ok(state);
    SuffixKeepsAgreement(config, state, frame, 0, state, FeedAll(receiver, header));
    var body := Translate(state, next, frame).value;
    FeedAppend(receiver, header + body, trailer);
    FeedAppend(receiver, header, body);
    TrailerSetsPrimary(config, next, FeedAll(FeedAll(receiver, header), body));
  }

  // Whether a frame is accepted, and with which error it is refused, is what the contact map says.
  lemma PlanRefinesPlay(config: Config, state: SlotState, frame: Frame)
    requires config.Valid() && state.Valid(config) && Orderly(frame) && frame != []
    ensures PlanBatch(config, state, frame).Err? ==>
              Play(config, state.View(), frame) == Err(PlanBatch(config, state, frame).error)
    ensures PlanBatch(config, state, frame).Ok? ==>
              var next := PlanBatch(config, state, frame).value.next;
              next.Valid(config) && Play(config, state.View(), frame) == Ok(next.View())
  {
    NextStateRefines(config, state, frame);
    if NextState(config, state, frame).Ok? {
      AgreeingReceiver(config, state);
      var receiver :| Agrees(state, receiver);
      BatchSimulates(config, state, frame, receiver);
    }
  }

  lemma AgreeingReceiver(config: Config, state: SlotState)
    requires state.Valid(config)
    ensures exists receiver :: Agrees(state, receiver)
  {
    var tracked := seq(state.slotCount, i requires 0 <= i < state.slotCount =>
      if state.slots[i].contact.None? then Tracked(-1, 0, 0)
      else Tracked(state.slots[i].contact.value, state.slots[i].x, state.slots[i].y));
    var p := if state.PrimaryPosition().Some? then state.PrimaryPosition().value else Point(0, 0);
    var receiver := Receiver(0, tracked, if state.activeCount > 0 then 1 else 0, p.x, p.y);
    PrimaryIsFirst(state, receiver);
    assert Agrees(state, receiver);
  }

  // ---------------------------------------------------------------------------------------
  // Whole runs.

  // A run of the injector: frames with the device's verdict on each batch.
  datatype Submission = Submission(frame: Frame, deviceAccepts: bool)

  datatype Run = Run(state: SlotState, batches: seq<seq<LinuxEvent>>)

  function RunAll(config: Config, submissions: seq<Submission>): (r: Run)
    ensures r.state.WellFormed() || !config.Valid()
    decreases |submissions|
  {
    if submissions == [] then Run(NewSlotState(config), [])
    else
      var before := RunAll(config, submissions[..|submissions| - 1]);
      var last := submissions[|submissions| - 1];
      if !config.Valid() then before
      else
        match PlanBatch(config, before.state, last.frame)
        case Err(_) => before
        case Ok(planned) =>
          if last.deviceAccepts then Run(planned.next, before.batches + [planned.batch]) else before
  }

  // For every sequence of submissions, accepted or not, replaying all emitted batches gives
  // exactly the injector's table.
  lemma {:induction false} RunRefines(config: Config, submissions: seq<Submission>)
    requires config.Valid()
    requires forall s | s in submissions :: Orderly(s.frame)
    ensures var r := RunAll(config, submissions);
            r.state.Valid(config) && Agrees(r.state, Replay(config, r.batches))
    decreases |submissions|
  {
    if submissions == [] {
      NewStateValid(config);
      CountersAgree(config, NewSlotState(config));
    } else {
      var front, last := submissions[..|submissions| - 1], submissions[|submissions| - 1];
      RunRefines(config, front);
      var before := RunAll(config, front);
      match PlanBatch(config, before.state, last.frame)
      case Err(_) =>
      case Ok(planned) =>
        BatchSimulates(config, before.state, last.frame, Replay(config, before.batches));
        assert (before.batches + [planned.batch])[..|before.batches|] == before.batches;
    }
  }

  // ---------------------------------------------------------------------------------------
  // Two limits of the translator.

  // Outside orderly frames agreement is lost: contact 7 in slot 1, slot 0 free, and one frame that
  // lifts it, puts it down and moves it. The table ends with (5, 5) in slot 0; the batch wrote
  // (5, 5) to slot 1.
  const TINY := Config(100, 100, 2)
  const LIFT := TouchEvent(7, Up, Point(1, 1))
  const LAND := TouchEvent(7, Down, Point(2, 2))
  const SLIDE := TouchEvent(7, Move, Point(5, 5))

  function TwoSlots(first: Slot, second: Slot, count: nat): (s: SlotState)
    ensures s.WellFormed() && s.slotCount == 2 && s.slots[0] == first && s.slots[1] == second
  {
    SlotState([first, second] + seq(MAX_SLOT_COUNT - 2, i => EMPTY_SLOT), 2, count)
  }

  lemma DisorderlyState()
    ensures var state := TwoSlots(EMPTY_SLOT, Slot(Some(7), 1, 1), 1);
            && state.Valid(TINY)
            && NextState(TINY, state, [LIFT, LAND, SLIDE]) == Ok(TwoSlots(Slot(Some(7), 5, 5), EMPTY_SLOT, 1))
  {
    var state := TwoSlots(EMPTY_SLOT, Slot(Some(7), 1, 1), 1);
    assert CountActive(state.slots, 2) == CountActive(state.slots, 1) + 1
        && CountActive(state.slots, 1) == CountActive(state.slots, 0);
    var lifted, landed, slid := TwoSlots(EMPTY_SLOT, EMPTY_SLOT, 0), TwoSlots(Slot(Some(7), 2, 2), EMPTY_SLOT, 1),
                                TwoSlots(Slot(Some(7), 5, 5), EMPTY_SLOT, 1);
    assert ApplyEvent(TINY, state, LIFT) == Ok(lifted) by {
      assert state.slots[1 := EMPTY_SLOT] == lifted.slots;
    }
    assert ApplyEvent(TINY, lifted, LAND) == Ok(landed) by {
      assert lifted.slots[0 := Slot(Some(7), 2, 2)] == landed.slots;
    }
    assert ApplyEvent(TINY, landed, SLIDE) == Ok(slid) by {
      assert landed.slots[0 := Slot(Some(7), 5, 5)] == slid.slots;
    }
    assert [LIFT, LAND, SLIDE][1..] == [LAND, SLIDE] && [LAND, SLIDE][1..] == [SLIDE] && [SLIDE][1..] == [];
    assert NextState(TINY, slid, []) == Ok(slid);
    assert NextState(TINY, landed, [SLIDE]) == Ok(slid);
    assert NextState(TINY, lifted, [LAND, SLIDE]) == Ok(slid);
  }

  lemma DisorderlyBatch()
    ensures var state, next := TwoSlots(EMPTY_SLOT, Slot(Some(7), 1, 1), 1),
            TwoSlots(Slot(Some(7), 5, 5), EMPTY_SLOT, 1);
            Translate(state, next, [LIFT, LAND, SLIDE])
            == Ok(EventBatch(1, LIFT) + (EventBatch(0, LAND) + (EventBatch(1, SLIDE) + [])))
  {
    var state, next := TwoSlots(EMPTY_SLOT, Slot(Some(7), 1, 1), 1), TwoSlots(Slot(Some(7), 5, 5), EMPTY_SLOT, 1);
    assert state.ActiveSlot(7) == Some(1) && next.ActiveSlot(7) == Some(0);
    assert [LIFT, LAND, SLIDE][1..] == [LAND, SLIDE] && [LAND, SLIDE][1..] == [SLIDE] && [SLIDE][1..] == [];
    assert Translate(state, next, []) == Ok([]);
    assert Translate(state, next, [SLIDE]) == Ok(EventBatch(1, SLIDE) + []);
    assert Translate(state, next, [LAND, SLIDE]) == Ok(EventBatch(0, LAND) + (EventBatch(1, SLIDE) + []));
  }

  lemma DisorderlyReplay(receiver: Receiver, trailer: seq<LinuxEvent>)
    requires |receiver.slots| == 2
             && (trailer == [] || (|trailer| == 2 && trailer[0].code.AbsX? && trailer[1].code.AbsY?))
    ensures var after := FeedAll(receiver,
                                 EventBatch(1, LIFT) + (EventBatch(0, LAND) + (EventBatch(1, SLIDE) + [])) + trailer);
            |after.slots| == 2 && after.slots[0] == Tracked(7, 2, 2)
  {
    var body := EventBatch(1, LIFT) + (EventBatch(0, LAND) + (EventBatch(1, SLIDE) + []));
    FeedAppend(receiver, body, trailer);
    FeedAppend(receiver, EventBatch(1, LIFT), EventBatch(0, LAND) + (EventBatch(1, SLIDE) + []));
    FeedEvent(receiver, 1, LIFT);
    var lifted := Unrolled(receiver, 1, LIFT);
    FeedAppend(lifted, EventBatch(0, LAND), EventBatch(1, SLIDE) + []);
    FeedEvent(lifted, 0, LAND);
    var landed := Unrolled(lifted, 0, LAND);
    assert EventBatch(1, SLIDE) + [] == EventBatch(1, SLIDE);
    FeedEvent(landed, 1, SLIDE);
    assert FeedAll(receiver, body) == Unrolled(landed, 1, SLIDE);
    if trailer != [] {
      assert trailer == [trailer[0], trailer[1]];
      FeedTwo(Unrolled(landed, 1, SLIDE), trailer[0], trailer[1]);
    }
  }

  lemma DisorderlyFrameDisagrees()
    ensures var state := TwoSlots(EMPTY_SLOT, Slot(Some(7), 1, 1), 1);
            var receiver := Receiver(0, [Tracked(-1, 0, 0), Tracked(7, 1, 1)], 1, 1, 1);
            var frame := [LIFT, LAND, SLIDE];
            && TINY.Valid() && state.Valid(TINY) && Agrees(state, receiver) && !Orderly(frame)
            && PlanBatch(TINY, state, frame).Ok?
            && !Agrees(PlanBatch(TINY, state, frame).value.next,
                       FeedAll(receiver, PlanBatch(TINY, state, frame).value.batch))
  {
    var state := TwoSlots(EMPTY_SLOT, Slot(Some(7), 1, 1), 1);
    var receiver := Receiver(0, [Tracked(-1, 0, 0), Tracked(7, 1, 1)], 1, 1, 1);
    var frame := [LIFT, LAND, SLIDE];
    assert frame[0].phase.Lifts() && frame[2].phase.Move?;
    DisorderlyState();
    DisorderlyBatch();
    var next := TwoSlots(Slot(Some(7), 5, 5), EMPTY_SLOT, 1);
    var body := EventBatch(1, LIFT) + (EventBatch(0, LAND) + (EventBatch(1, SLIDE) + []));
    assert [] + body == body;
    DisorderlyReplay(receiver, PrimaryTrailer(next));
    assert forall i | IsFirst(receiver, i) :: i == 1;
  }

  // ---------------------------------------------------------------------------------------
  // When the translator refuses what the contact map accepts

  // The event lifts a contact the frame itself put down, or puts down one it lifts again: the translator
  // looks such a contact up where it is not.
  predicate Unseen(before: Contacts, after: Contacts, event: TouchEvent) {
    || (event.phase.Lifts() && event.contact !in before)
    || (event.phase.Down? && event.contact !in after)
  }

  lemma {:induction false} TranslateFails(current: SlotState, next: SlotState, frame: Frame, i: nat)
    requires current.WellFormed() && next.WellFormed() && i < |frame|
    requires TranslatedSlot(current, next, frame[i]).None?
    requires forall j | 0 <= j < i :: TranslatedSlot(current, next, frame[j]).Some?
    ensures Translate(current, next, frame) == Err(ContactNotActive(frame[i].contact))
    decreases i
  {
    if i > 0 {
      TranslateFails(current, next, frame[1..], i - 1);
    }
  }

  lemma {:induction false} TranslateSucceeds(current: SlotState, next: SlotState, frame: Frame)
    requires current.WellFormed() && next.WellFormed()
    requires forall j | 0 <= j < |frame| :: TranslatedSlot(current, next, frame[j]).Some?
    ensures Translate(current, next, frame).Ok?
    decreases |frame|
  {
    if frame != [] {
      TranslateSucceeds(current, next, frame[1..]);
    }
  }

  // The first event the translator cannot place is never a move: a contact moved before it was known
  // was put down earlier in the frame.
  lemma FirstUnplaced(config: Config, current: SlotState, frame: Frame, i: nat)
    requires current.Valid(config) && i < |frame| && NextState(config, current, frame).Ok?
    requires var next := NextState(config, current, frame).value;
             && TranslatedSlot(current, next, frame[i]).None?
             && forall j | 0 <= j < i :: TranslatedSlot(current, next, frame[j]).Some?
    ensures !frame[i].phase.Move?
  {
    if frame[i].phase.Move? {
      assert frame == frame[..i] + frame[i..];
      NextStateSplit(config, current, frame[..i], frame[i..]);
      var middle := NextState(config, current, frame[..i]).value;
      FoldValid(config, current, frame[..i]);
      FoldAt(config, current, frame, i, middle);
      AppliedWrites(config, middle, frame[i]);
      DownedBefore(config, current, frame[..i], frame[i].contact, middle.ActiveSlot(frame[i].contact).value);
    }
  }

  lemma {:induction false} FirstWithout(current: SlotState, next: SlotState, frame: Frame, i: nat) returns (first: nat)
    requires current.WellFormed() && next.WellFormed() && i < |frame|
    requires TranslatedSlot(current, next, frame[i]).None?
    ensures first <= i && TranslatedSlot(current, next, frame[first]).None?
    ensures forall j | 0 <= j < first :: TranslatedSlot(current, next, frame[j]).Some?
  {
    first := i;
    if j :| 0 <= j < i && TranslatedSlot(current, next, frame[j]).None? {
      first := FirstWithout(current, next, frame, j);
    }
  }

  // A frame the contact map accepts is refused exactly if it has an unseen event, and the error names
  // the contact of the first one.
  lemma RefusedIffUnseen(config: Config, state: SlotState, frame: Frame)
    requires config.Valid() && state.Valid(config) && frame != [] && Play(config, state.View(), frame).Ok?
    ensures var before, after := state.View(), Play(config, state.View(), frame).value;
            && (PlanBatch(config, state, frame).Err? <==>
                  exists i :: 0 <= i < |frame| && Unseen(before, after, frame[i]))
            && forall i | 0 <= i < |frame| && Unseen(before, after, frame[i])
                          && (forall j | 0 <= j < i :: !Unseen(before, after, frame[j])) ::
                 PlanBatch(config, state, frame) == Err(ContactNotActive(frame[i].contact))
  {
    NextStateRefines(config, state, frame);
    var next := NextState(config, state, frame).value;
    var before, after := state.View(), Play(config, state.View(), frame).value;
    if forall j | 0 <= j < |frame| :: TranslatedSlot(state, next, frame[j]).Some? {
      TranslateSucceeds(state, next, frame);
      forall i | 0 <= i < |frame| ensures !Unseen(before, after, frame[i]) {
        UnseenIsUnplaced(state, next, frame[i]);
      }
    } else {
      var some :| 0 <= some < |frame| && TranslatedSlot(state, next, frame[some]).None?;
      var first := FirstWithout(state, next, frame, some);
      FirstUnplaced(config, state, frame, first);
      TranslateFails(state, next, frame, first);
      forall i | 0 <= i <= first ensures Unseen(before, after, frame[i]) <==> i == first {
        UnseenIsUnplaced(state, next, frame[i]);
      }
    }
  }

  lemma UnseenIsUnplaced(current: SlotState, next: SlotState, event: TouchEvent)
    requires current.WellFormed() && next.WellFormed()
    ensures Unseen(current.View(), next.View(), event) ==> TranslatedSlot(current, next, event).None?
    ensures TranslatedSlot(current, next, event).None? && !event.phase.Move? ==>
              Unseen(current.View(), next.View(), event)
  {
  }

  // So putting a contact down and lifting it again is refused, though it leaves the contact map as it was.
  lemma LandAndLiftIsRefused(config: Config, state: SlotState, contact: ContactId, down: Point, up: Point)
    requires config.Valid() && state.Valid(config) && config.Contains(down)
    requires contact !in state.View() && state.activeCount < config.slotCount
    ensures var frame := [TouchEvent(contact, Down, down), TouchEvent(contact, Up, up)];
            && !Orderly(frame)
            && Play(config, state.View(), frame) == Ok(state.View())
            && PlanBatch(config, state, frame) == Err(ContactNotActive(contact))
  {
    var land, lift := TouchEvent(contact, Down, down), TouchEvent(contact, Up, up);
    var frame := [land, lift];
    assert frame[0].phase.Down? && frame[1].phase.Lifts();
    CountersAgree(config, state);
    PlayLandAndLift(config, state.View(), land, lift);
    assert Unseen(state.View(), state.View(), frame[0]);
    RefusedIffUnseen(config, state, frame);
  }

  lemma PlayLandAndLift(config: Config, contacts: Contacts, land: TouchEvent, lift: TouchEvent)
    requires land.phase.Down? && lift.phase.Up? && land.contact == lift.contact && config.Contains(land.position)
    requires land.contact !in contacts && |contacts| < config.slotCount
    ensures Play(config, contacts, [land, lift]) == Ok(contacts)
  {
    assert [land, lift][1..] == [lift] && [lift][1..] == [];
    var landed := contacts[land.contact := land.position];
    assert Step(config, contacts, land) == Ok(landed) && landed - {lift.contact} == contacts;
    assert Play(config, landed, [lift]) == Ok(contacts);
  }

  // The zero-gap recenter frame puts the new contact down before it lifts the old one, so it needs
  // a spare slot; the same two events the other way round never do.
  lemma RecenterNeedsSpareSlot(config: Config, state: SlotState, outgoing: ContactId, incoming: ContactId,
                               origin: Point, last: Point)
    requires config.Valid() && state.Valid(config) && config.Contains(origin)
    requires outgoing in state.View() && incoming !in state.View()
    ensures var down, up := TouchEvent(incoming, Down, origin), TouchEvent(outgoing, Up, last);
            && (PlanBatch(config, state, [down, up]).Ok? <==> state.activeCount < config.slotCount)
            && PlanBatch(config, state, [up, down]).Ok?
  {
    var down, up := TouchEvent(incoming, Down, origin), TouchEvent(outgoing, Up, last);
    CountersAgree(config, state);
    PlayBothOrders(config, state.View(), down, up);
    PairAccepted(config, state, down, up);
    PairAccepted(config, state, up, down);
  }

  lemma PairAccepted(config: Config, state: SlotState, first: TouchEvent, second: TouchEvent)
    requires config.Valid() && state.Valid(config) && first.contact != second.contact
    ensures PlanBatch(config, state, [first, second]).Ok? <==> Play(config, state.View(), [first, second]).Ok?
  {
    var frame := [first, second];
    assert Orderly(frame);
    PlanRefinesPlay(config, state, frame);
  }

  lemma PlayBothOrders(config: Config, contacts: Contacts, down: TouchEvent, up: TouchEvent)
    requires down.phase.Down? && up.phase.Up? && config.Contains(down.position)
    requires up.contact in contacts && down.contact !in contacts && |contacts| <= config.slotCount
    ensures Play(config, contacts, [down, up]).Ok? <==> |contacts| < config.slotCount
    ensures Play(config, contacts, [up, down]).Ok?
  {
    assert [up, down][1..] == [down] && [down][1..] == [] && [down, up][1..] == [up] && [up][1..] == [];
    var without := contacts - {up.contact};
    assert contacts.Keys == without.Keys + {up.contact};
    assert |contacts.Keys| == |without.Keys| + 1;
    assert Step(config, without, down).Ok?;
    assert Play(config, without, [down]).Ok?;
    assert Step(config, contacts, down).Ok? ==> Play(config, Step(config, contacts, down).value, [up]).Ok?;
  }
}
