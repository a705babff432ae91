// Touch frames, the slot table of the uinput injector, and the contact map the slot table
// stands for (crates/wroid-runtime/src/lib.rs, crates/wroid-inject/src/{state,transition}.rs).

module Touch {
  import opened Wrappers

  type ContactId = U16

  datatype Phase = Down | Move | Up | Cancel {
    predicate Lifts() { Up? || Cancel? }
  }

  datatype TouchEvent = TouchEvent(contact: ContactId, phase: Phase, position: Point)

  type Frame = seq<TouchEvent>

  const MAX_SLOT_COUNT := 32

  datatype Config = Config(width: U32, height: U32, slotCount: nat) {
    // What DeviceConfig::with_name_and_slots accepts.
    predicate Valid() {
      && 0 < width < I32_LIMIT
      && 0 < height < I32_LIMIT
      && 1 <= slotCount <= MAX_SLOT_COUNT
    }

    predicate Contains(p: Point) { p.x < width && p.y < height }
  }

  datatype FrameError =
    | EmptyFrame
    | ContactAlreadyActive(contact: ContactId)
    | ContactNotActive(contact: ContactId)
    | NoFreeSlot(contact: ContactId)
    | CoordinateOutOfRange(contact: ContactId, position: Point)
    | Emit

  // ---------------------------------------------------------------------------------------
  // What a frame means: a fold over the map from contact to position, with a capacity.

  type Contacts = map<ContactId, Point>

  function Step(config: Config, contacts: Contacts, event: TouchEvent): Result<Contacts, FrameError> {
    var id := event.contact;
    match event.phase
    case Down =>
      if !config.Contains(event.position) then Err(CoordinateOutOfRange(id, event.position))
      else if id in contacts then Err(ContactAlreadyActive(id))
      else if |contacts| >= config.slotCount then Err(NoFreeSlot(id))
      else Ok(contacts[id := event.position])
    case Move =>
      if !config.Contains(event.position) then Err(CoordinateOutOfRange(id, event.position))
      else if id !in contacts then Err(ContactNotActive(id))
      else Ok(contacts[id := event.position])
    case Up =>
      if id !in contacts then Err(ContactNotActive(id)) else Ok(contacts - {id})
    case Cancel =>
      if id !in contacts then Err(ContactNotActive(id)) else Ok(contacts - {id})
  }

  function Play(config: Config, contacts: Contacts, frame: Frame): Result<Contacts, FrameError>
    decreases |frame|
  {
    if frame == [] then Ok(contacts)
    else
      match Step(config, contacts, frame[0])
      case Err(error) => Err(error)
      case Ok(next) => Play(config, next, frame[1..])
  }

  // ---------------------------------------------------------------------------------------
  // The slot table.

  datatype Slot = Slot(contact: Option<ContactId>, x: U32, y: U32)

  const EMPTY_SLOT := Slot(None, 0, 0)

  function FindFrom(slots: seq<Slot>, from: nat, limit: nat, want: Option<ContactId>): (r: Option<nat>)
    requires from <= limit <= |slots|
    ensures r.Some? ==> from <= r.value < limit && slots[r.value].contact == want
    ensures r.Some? ==> forall j | from <= j < r.value :: slots[j].contact != want
    ensures r.None? ==> forall j | from <= j < limit :: slots[j].contact != want
    decreases limit - from
  {
    if from == limit then None
    else if slots[from].contact == want then Some(from)
    else FindFrom(slots, from + 1, limit, want)
  }

  function FirstActive(slots: seq<Slot>, from: nat, limit: nat): (r: Option<nat>)
    requires from <= limit <= |slots|
    ensures r.Some? ==> from <= r.value < limit && slots[r.value].contact.Some?
    ensures r.Some? ==> forall j | from <= j < r.value :: slots[j].contact.None?
    ensures r.None? ==> forall j | from <= j < limit :: slots[j].contact.None?
    decreases limit - from
  {
    if from == limit then None
    else if slots[from].contact.Some? then Some(from)
    else FirstActive(slots, from + 1, limit)
  }

  function CountActive(slots: seq<Slot>, limit: nat): (n: nat)
    requires limit <= |slots|
    ensures n <= limit
  {
    if limit == 0 then 0
    else CountActive(slots, limit - 1) + if slots[limit - 1].contact.Some? then 1 else 0
  }

  datatype SlotState = SlotState(slots: seq<Slot>, slotCount: nat, activeCount: nat) {

    predicate WellFormed() { slotCount <= |slots| == MAX_SLOT_COUNT }

    function ActiveSlot(contact: ContactId): (r: Option<nat>)
      requires WellFormed()
      ensures r.Some? ==> r.value < slotCount && slots[r.value].contact == Some(contact)
      ensures r.None? ==> forall j | 0 <= j < slotCount :: slots[j].contact != Some(contact)
    {
      FindFrom(slots, 0, slotCount, Some(contact))
    }

    function FreeSlot(): (r: Option<nat>)
      requires WellFormed()
      ensures r.Some? ==> r.value < slotCount && slots[r.value].contact.None?
                          && forall j | 0 <= j < r.value :: slots[j].contact.Some?
      ensures r.None? ==> forall j | 0 <= j < slotCount :: slots[j].contact.Some?
    {
      FindFrom(slots, 0, slotCount, None)
    }

    function PrimaryPosition(): Option<Point>
      requires WellFormed()
    {
      match FirstActive(slots, 0, slotCount)
      case None => None
      case Some(i) => Some(Point(slots[i].x, slots[i].y))
    }

    // No contact owns two slots, the cached count is the real one, positions stay on the surface.
    ghost predicate Valid(config: Config) {
      && WellFormed()
      && slotCount == config.slotCount
      && (forall i, j | 0 <= i < j < slotCount ::
            slots[i].contact.Some? ==> slots[i].contact != slots[j].contact)
      && activeCount == CountActive(slots, slotCount)
      && (forall i | 0 <= i < slotCount ::
            slots[i].contact.Some? ==> config.Contains(Point(slots[i].x, slots[i].y)))
    }

    ghost function ActiveSet(): (s: set<ContactId>)
      requires WellFormed()
      ensures forall c: ContactId :: c in s <==> ActiveSlot(c).Some?
    {
      set i: nat | i < slotCount && slots[i].contact.Some? :: slots[i].contact.value
    }

    // The contact map the table stands for.
    ghost function View(): (m: Contacts)
      requires WellFormed()
    {
      map c | c in ActiveSet() :: Point(slots[ActiveSlot(c).value].x, slots[ActiveSlot(c).value].y)
    }
  }

  function NewSlotState(config: Config): SlotState
  {
    SlotState(seq(MAX_SLOT_COUNT, i => EMPTY_SLOT), config.slotCount, 0)
  }

  // One event of next_state.
  function ApplyEvent(config: Config, state: SlotState, event: TouchEvent): (r: Result<SlotState, FrameError>)
    requires state.WellFormed()
    ensures r.Ok? ==> r.value.WellFormed() && r.value.slotCount == state.slotCount
  {
    var id := event.contact;
    if event.phase.Down? || event.phase.Move? then
      if !config.Contains(event.position) then Err(CoordinateOutOfRange(id, event.position))
      else if event.phase.Down? then
        if state.ActiveSlot(id).Some? then Err(ContactAlreadyActive(id))
        else
          match state.FreeSlot()
          case None => Err(NoFreeSlot(id))
          case Some(k) =>
            Ok(state.(slots := state.slots[k := Slot(Some(id), event.position.x, event.position.y)],
                      activeCount := state.activeCount + 1))
      else
        match state.ActiveSlot(id)
        case None => Err(ContactNotActive(id))
        case Some(k) =>
          Ok(state.(slots := state.slots[k := state.slots[k].(x := event.position.x, y := event.position.y)]))
    else
      match state.ActiveSlot(id)
      case None => Err(ContactNotActive(id))
      case Some(k) =>
        // The u16 counter never wraps: Valid() makes it at least one here.
        Ok(state.(slots := state.slots[k := EMPTY_SLOT],
                  activeCount := if state.activeCount == 0 then U16_LIMIT - 1 else state.activeCount - 1))
  }

  function NextState(config: Config, state: SlotState, frame: Frame): (r: Result<SlotState, FrameError>)
    requires state.WellFormed()
    ensures r.Ok? ==> r.value.WellFormed() && r.value.slotCount == state.slotCount
    decreases |frame|
  {
    if frame == [] then Ok(state)
    else
      match ApplyEvent(config, state, frame[0])
      case Err(error) => Err(error)
      case Ok(next) => NextState(config, next, frame[1..])
  }

  // ---------------------------------------------------------------------------------------
  // Counting lemmas.

  lemma {:induction false} CountUpdate(slots: seq<Slot>, limit: nat, k: nat, slot: Slot)
    requires limit <= |slots| && k < |slots|
    ensures CountActive(slots[k := slot], limit)
         == CountActive(slots, limit)
            + (if k < limit && slot.contact.Some? then 1 else 0)
            - (if k < limit && slots[k].contact.Some? then 1 else 0)
  {
    if limit != 0 {
      CountUpdate(slots, limit - 1, k, slot);
    }
  }

  lemma {:induction false} CountFull(slots: seq<Slot>, limit: nat)
    requires limit <= |slots|
    ensures CountActive(slots, limit) == limit <==> forall j | 0 <= j < limit :: slots[j].contact.Some?
  {
    if limit != 0 {
      CountFull(slots, limit - 1);
    }
  }

  lemma {:induction false} CountZero(slots: seq<Slot>, limit: nat)
    requires limit <= |slots|
    ensures CountActive(slots, limit) == 0 <==> forall j | 0 <= j < limit :: slots[j].contact.None?
  {
    if limit != 0 {
      CountZero(slots, limit - 1);
    }
  }

  ghost function ContactSet(slots: seq<Slot>, limit: nat): set<ContactId>
    requires limit <= |slots|
  {
    set i: nat | i < limit && slots[i].contact.Some? :: slots[i].contact.value
  }

  lemma {:induction false} CountIsCardinality(slots: seq<Slot>, limit: nat)
    requires limit <= |slots|
    requires forall i, j | 0 <= i < j < limit :: slots[i].contact.Some? ==> slots[i].contact != slots[j].contact
    ensures |ContactSet(slots, limit)| == CountActive(slots, limit)
  {
    if limit != 0 {
      CountIsCardinality(slots, limit - 1);
      var last := slots[limit - 1].contact;
      if last.Some? {
        assert ContactSet(slots, limit) == ContactSet(slots, limit - 1) + {last.value};
      } else {
        assert ContactSet(slots, limit) == ContactSet(slots, limit - 1);
      }
    }
  }

  // The cached counter, the number of occupied slots and the size of the contact map agree,
  // so `free_slot` fails exactly when the map is at capacity.
  lemma CountersAgree(config: Config, state: SlotState)
    requires state.Valid(config)
    ensures |state.View()| == state.activeCount <= state.slotCount
    ensures state.FreeSlot().None? <==> state.activeCount == state.slotCount
    ensures state.PrimaryPosition().None? <==> state.activeCount == 0
  {
    ViewSize(config, state);
    CountFull(state.slots, state.slotCount);
    CountZero(state.slots, state.slotCount);
  }

  lemma ViewSize(config: Config, state: SlotState)
    requires state.Valid(config)
    ensures |state.View()| == state.activeCount
  {
    CountIsCardinality(state.slots, state.slotCount);
    assert state.ActiveSet() == ContactSet(state.slots, state.slotCount);
    assert state.View().Keys == state.ActiveSet();
  }

  // A contact sits in the one slot that names it.
  lemma SlotIsUnique(config: Config, state: SlotState, contact: ContactId, k: nat)
    requires state.Valid(config)
    requires k < state.slotCount && state.slots[k].contact == Some(contact)
    ensures state.ActiveSlot(contact) == Some(k)
  {
  }

  lemma NewStateValid(config: Config)
    requires config.Valid()
    ensures NewSlotState(config).Valid(config)
    ensures NewSlotState(config).View() == map[]
  {
    var s := NewSlotState(config);
    CountZero(s.slots, s.slotCount);
    assert s.ActiveSet() == {};
  }

  // ---------------------------------------------------------------------------------------
  // The slot table refines the contact map, error for error.

  // The one slot an accepted event writes, and what it held.
  function TouchedSlot(state: SlotState, event: TouchEvent): nat
    requires state.WellFormed()
  {
    var slot := if event.phase.Down? then state.FreeSlot() else state.ActiveSlot(event.contact);
    if slot.Some? then slot.value else 0
  }

  ghost predicate Writes(state: SlotState, next: SlotState, event: TouchEvent, k: nat)
    requires state.WellFormed() && next.WellFormed()
  {
    var id := event.contact;
    && k < state.slotCount == next.slotCount
    && next.slots == state.slots[k := next.slots[k]]
    && match event.phase
       case Down => && state.slots[k].contact.None? && state.ActiveSlot(id).None?
                    && next.slots[k] == Slot(Some(id), event.position.x, event.position.y)
                    && next.activeCount == state.activeCount + 1
       case Move => && state.slots[k].contact == Some(id)
                    && next.slots[k] == Slot(Some(id), event.position.x, event.position.y)
                    && next.activeCount == state.activeCount
       case _    => && state.slots[k].contact == Some(id) && next.slots[k] == EMPTY_SLOT
                    && next.activeCount == state.activeCount - 1
  }

  lemma AppliedWrites(config: Config, state: SlotState, event: TouchEvent)
    requires state.Valid(config)
    requires ApplyEvent(config, state, event).Ok?
    ensures Writes(state, ApplyEvent(config, state, event).value, event, TouchedSlot(state, event))
  {
    CountZero(state.slots, state.slotCount);
  }

  lemma WrittenValid(config: Config, state: SlotState, next: SlotState, event: TouchEvent, k: nat)
    requires state.Valid(config) && next.WellFormed()
    requires Writes(state, next, event, k)
    requires event.phase.Lifts() || config.Contains(event.position)
    ensures next.Valid(config)
  {
    CountUpdate(state.slots, state.slotCount, k, next.slots[k]);
  }

  lemma StepRefines(config: Config, state: SlotState, event: TouchEvent)
    requires state.Valid(config)
    ensures match ApplyEvent(config, state, event)
            case Err(error) => Step(config, state.View(), event) == Err(error)
            case Ok(next) => next.Valid(config) && Step(config, state.View(), event) == Ok(next.View())
  {
    CountersAgree(config, state);
    assert event.contact in state.View() <==> state.ActiveSlot(event.contact).Some?;
    if ApplyEvent(config, state, event).Ok? {
      var next, k := ApplyEvent(config, state, event).value, TouchedSlot(state, event);
      AppliedWrites(config, state, event);
      WrittenValid(config, state, next, event, k);
      WrittenView(config, state, next, event, k);
    }
  }

  lemma WrittenView(config: Config, state: SlotState, next: SlotState, event: TouchEvent, k: nat)
    requires state.Valid(config) && next.Valid(config)
    requires Writes(state, next, event, k)
    ensures next.View() == if event.phase.Lifts() then state.View() - {event.contact}
                           else state.View()[event.contact := event.position]
  {
    var expected := if event.phase.Lifts() then state.View() - {event.contact}
                    else state.View()[event.contact := event.position];
    forall c: ContactId
      ensures c in next.View() <==> c in expected
      ensures c in expected ==> next.View()[c] == expected[c]
    {
      ViewAfterUpdate(config, state, next, k, c);
    }
    assert next.View() == expected;
  }

  lemma ViewAfterUpdate(config: Config, state: SlotState, next: SlotState, k: nat, c: ContactId)
    requires state.Valid(config) && next.Valid(config)
    requires k < state.slotCount && next.slots == state.slots[k := next.slots[k]]
    requires next.slots[k].contact == Some(c) ==>
               state.ActiveSlot(c) == Some(k) || state.ActiveSlot(c).None?
    ensures next.slots[k].contact == Some(c) ==>
              c in next.View() && next.View()[c] == Point(next.slots[k].x, next.slots[k].y)
    ensures next.slots[k].contact != Some(c) ==>
              (c in next.View() <==> c in state.View() && state.slots[k].contact != Some(c))
    ensures next.slots[k].contact != Some(c) && c in next.View() ==> next.View()[c] == state.View()[c]
  {
    if next.slots[k].contact == Some(c) {
      SlotIsUnique(config, next, c, k);
    } else {
      if state.ActiveSlot(c).Some? && state.slots[k].contact != Some(c) {
        SlotIsUnique(config, next, c, state.ActiveSlot(c).value);
      }
      if next.ActiveSlot(c).Some? {
        SlotIsUnique(config, state, c, next.ActiveSlot(c).value);
      }
    }
  }

  lemma {:induction false} NextStateRefines(config: Config, state: SlotState, frame: Frame)
    requires state.Valid(config)
    ensures match NextState(config, state, frame)
            case Err(error) => Play(config, state.View(), frame) == Err(error)
            case Ok(next) => next.Valid(config) && Play(config, state.View(), frame) == Ok(next.View())
    decreases |frame|
  {
    if frame != [] {
      StepRefines(config, state, frame[0]);
      match ApplyEvent(config, state, frame[0])
      case Err(_) =>
      case Ok(next) => NextStateRefines(config, next, frame[1..]);
    }
  }

  // ---------------------------------------------------------------------------------------
  // Frames.

  ghost predicate Distinct(frame: Frame) {
    forall i, j | 0 <= i < j < |frame| :: frame[i].contact != frame[j].contact
  }

  // Weaker than Distinct: within the frame a contact goes Move* (Up Down?)? or Down Move*.
  ghost predicate Orderly(frame: Frame) {
    forall i, j | 0 <= i < j < |frame| && frame[i].contact == frame[j].contact ::
      && !(frame[i].phase.Down? && frame[j].phase.Lifts())
      && !(frame[i].phase.Lifts() && frame[j].phase.Move?)
  }

  lemma {:induction false} NextStateSplit(config: Config, state: SlotState, front: Frame, back: Frame)
    requires state.WellFormed()
    ensures NextState(config, state, front + back)
         == match NextState(config, state, front)
            case Err(error) => Err(error)
            case Ok(middle) => NextState(config, middle, back)
    decreases |front|
  {
    if front == [] {
      assert front + back == back;
    } else {
      assert (front + back)[0] == front[0] && (front + back)[1..] == front[1..] + back;
      match ApplyEvent(config, state, front[0])
      case Err(_) =>
      case Ok(next) => NextStateSplit(config, next, front[1..], back);
    }
  }

  lemma PersistsOnce(config: Config, state: SlotState, event: TouchEvent, contact: ContactId, k: nat)
    requires state.Valid(config) && ApplyEvent(config, state, event).Ok?
    requires k < state.slotCount && state.slots[k].contact == Some(contact)
    requires event.contact == contact ==> !event.phase.Lifts()
    ensures ApplyEvent(config, state, event).value.slots[k].contact == Some(contact)
  {
  }

  // A contact nobody lifts stays in its slot.
  lemma {:induction false} Persists(config: Config, state: SlotState, frame: Frame, contact: ContactId, k: nat)
    requires state.Valid(config) && NextState(config, state, frame).Ok?
    requires k < state.slotCount && state.slots[k].contact == Some(contact)
    requires forall i | 0 <= i < |frame| :: frame[i].contact == contact ==> !frame[i].phase.Lifts()
    ensures NextState(config, state, frame).value.slots[k].contact == Some(contact)
    decreases |frame|
  {
    if frame != [] {
      StepRefines(config, state, frame[0]);
      PersistsOnce(config, state, frame[0], contact, k);
      Persists(config, ApplyEvent(config, state, frame[0]).value, frame[1..], contact, k);
    }
  }

  // A contact nobody puts down was in its slot all along.
  lemma {:induction false} Originates(config: Config, state: SlotState, frame: Frame, contact: ContactId, k: nat)
    requires state.Valid(config) && NextState(config, state, frame).Ok?
    requires k < state.slotCount && NextState(config, state, frame).value.slots[k].contact == Some(contact)
    requires forall i | 0 <= i < |frame| :: frame[i].contact == contact ==> !frame[i].phase.Down?
    ensures state.slots[k].contact == Some(contact)
    decreases |frame|
  {
    if frame != [] {
      StepRefines(config, state, frame[0]);
      AppliedWrites(config, state, frame[0]);
      Originates(config, ApplyEvent(config, state, frame[0]).value, frame[1..], contact, k);
    }
  }
}
