/** The draft and the pending submission of a planned order, kept together under one storage key
    (apps/client/lib/planned-draft.ts:30-65). */
module PlannedDraft {
  import opened Options
  import opened JsText
  import opened OrderSubmission

  /** iso and parse: toISOString and Date.parse. slot: serviceSlot, in milliseconds. */
  datatype Clock = Clock(iso: int -> string, parse: Value -> Option<int>, slot: (string, nat) -> Option<(int, int)>)

  datatype Draft = Draft(
    categoryId: string, description: string, address: string, district: string,
    entrance: string, floor: string, apartment: string, addressComment: string,
    budget: string, date: string, slotIndex: nat, photoPaths: seq<string>)

  datatype Payload = Payload(submission: Submission, slotStart: string, slotEnd: string, budget: Option<nat>)

  datatype Pending = Pending(clientRequestId: string, payload: Payload)

  datatype Stored = Unparsable | Parsed(value: Value)

  /** missing: there is no storage. The others: the call throws. */
  datatype Faults = Faults(missing: bool, getItem: bool, setItem: bool, removeItem: bool)

  /** draft: None stands for the empty draft. */
  datatype State = State(draft: Option<Draft>, pending: Option<Value>, completedOrderId: Option<string>,
                         uncertain: bool)

  const UNCERTAIN := State(None, None, None, true)

  const MAX_BUDGET := 2147483647
  const FORTNIGHT := 14 * 86400000

  // ---------------------------------------------------------------- the draft

  predicate Fits(v: Value, max: nat) { v.Text? && |v.text| <= max }

  predicate IsSlotIndex(v: Value) { v.Number? && v.value.Floor as real == v.value && 0.0 <= v.value <= 3.0 }

  predicate ArePaths(v: Value) {
    v.List? && |v.items| <= 5 && forall i :: 0 <= i < |v.items| ==> Fits(v.items[i], 100)
  }

  function CheckedDraft(
    categoryId: Value, description: Value, address: Value, district: Value, entrance: Value, floor: Value,
    apartment: Value, addressComment: Value, budget: Value, date: Value, slotIndex: Value, photoPaths: Value)
    : Option<Draft>
  {
    if && Fits(categoryId, 100) && Fits(description, 2000) && Fits(address, 500) && Fits(district, 200)
       && Fits(entrance, 50) && Fits(floor, 50) && Fits(apartment, 50) && Fits(addressComment, 500)
       && Fits(budget, 10) && Fits(date, 10) && IsSlotIndex(slotIndex) && ArePaths(photoPaths)
    then
      Some(Draft(categoryId.text, description.text, address.text, district.text, entrance.text, floor.text,
                 apartment.text, addressComment.text, budget.text, date.text, slotIndex.value.Floor,
                 Texts(photoPaths.items)))
    else None
  }

  /** sanitized. */
  function Sanitized(v: Value): Option<Draft> {
    CheckedDraft(
      Field(v, CATEGORY_ID), Field(v, DESCRIPTION), Field(v, ADDRESS), Field(v, DISTRICT), Field(v, ENTRANCE),
      Field(v, FLOOR), Field(v, APARTMENT), Field(v, ADDRESS_COMMENT), Field(v, BUDGET), Field(v, DATE),
      Field(v, SLOT_INDEX), Field(v, PHOTO_PATHS))
  }

  function DraftValue(d: Draft): Value {
    Object(map[
      CATEGORY_ID := Text(d.categoryId), DESCRIPTION := Text(d.description), ADDRESS := Text(d.address),
      DISTRICT := Text(d.district), ENTRANCE := Text(d.entrance), FLOOR := Text(d.floor),
      APARTMENT := Text(d.apartment), ADDRESS_COMMENT := Text(d.addressComment), BUDGET := Text(d.budget),
      DATE := Text(d.date), SLOT_INDEX := Number(d.slotIndex as real), PHOTO_PATHS := TextValues(d.photoPaths)])
  }

  // ---------------------------------------------------------------- the payload

  /** emptyNewOrderDraft, as far as currentOrderSubmission reads it. */
  const EMPTY_ORDER := Object(map[
    CATEGORY_ID := Text(""), DESCRIPTION := Text(""), PHOTO_PATHS := List([]),
    GEO := Object(map[LAT := Number(51.1605), LNG := Number(71.4704)]),
    ADDRESS_TEXT := Text(""), DISTRICT := Text(""), ENTRANCE := Text(""), FLOOR := Text(""), APARTMENT := Text(""),
    ADDRESS_COMMENT := Text("")])

  /** An object spread over another one, then one property set. */
  function Spread(base: Value, over: Value, key: Property, value: Value): Value
    requires base.Object?
  {
    Object((if over.Object? then base.fields + over.fields else base.fields)[key := value])
  }

  function OrderOf(d: Draft): Value {
    Spread(
      EMPTY_ORDER,
      DraftValue(d.(description := Trim(d.description), district := Trim(d.district))),
      ADDRESS_TEXT, Text(Trim(d.address)))
  }

  predicate AllDigits(s: string) { s != "" && forall i :: 0 <= i < |s| ==> '0' <= s[i] <= '9' }

  function DigitsValue(s: string): nat
    requires forall i :: 0 <= i < |s| ==> '0' <= s[i] <= '9'
  {
    if s == "" then 0 else 10 * DigitsValue(s[..|s| - 1]) + (s[|s| - 1] as int - '0' as int)
  }

  /** plannedSubmission. */
  function PlannedSubmission(c: Clock, draft: Value, now: int): Option<Payload> {
    match Sanitized(draft)
    case None => None
    case Some(d) =>
      var base, slot := CurrentOrder(OrderOf(d)), c.slot(d.date, d.slotIndex);
      if !base.Accepted? || slot.None? || slot.value.0 <= now || slot.value.0 > now + FORTNIGHT then None
      else if d.budget != "" && (!AllDigits(d.budget) || DigitsValue(d.budget) > MAX_BUDGET) then None
      else
        Some(Payload(base.submission, c.iso(slot.value.0), c.iso(slot.value.1),
                     if d.budget == "" then None else Some(DigitsValue(d.budget))))
  }

  /** The payload leaves the coordinates out. */
  function PayloadValue(p: Payload): Value {
    var s := p.submission;
    Object(map[
      CATEGORY_ID := s.categoryId, DESCRIPTION := Text(s.description), ADDRESS := Text(s.address),
      DISTRICT := Text(s.district), PHOTO_PATHS := TextValues(s.photoPaths),
      ENTRANCE := OptionalValue(s.entrance), FLOOR := OptionalValue(s.floor),
      APARTMENT := OptionalValue(s.apartment), ADDRESS_COMMENT := OptionalValue(s.addressComment),
      SLOT_START := Text(p.slotStart), SLOT_END := Text(p.slotEnd),
      BUDGET := if p.budget.Some? then Number(p.budget.value as real) else Undefined])
  }

  function PendingValue(p: Pending): Value {
    Object(map[CLIENT_REQUEST_ID := Text(p.clientRequestId), PAYLOAD := PayloadValue(p.payload)])
  }

  // ---------------------------------------------------------------- reading

  datatype Validity = Valid | Invalid | Throwing

  predicate IsBudget(v: Value) {
    || v.Undefined?
    || (v.Number? && v.value.Floor as real == v.value && 0.0 <= v.value <= MAX_BUDGET as real)
  }

  /** validPending. */
  function ValidPending(c: Clock, v: Value): Validity {
    var d := Field(v, PAYLOAD);
    if !IsUuidValue(Field(v, CLIENT_REQUEST_ID)) || !Truthy(d) then Invalid
    else match CurrentOrder(Spread(EMPTY_ORDER, d, ADDRESS_TEXT, Field(d, ADDRESS)))
      case Throws => Throwing
      case Refused => Invalid
      case Accepted(_) =>
        var start, end := c.parse(Field(d, SLOT_START)), c.parse(Field(d, SLOT_END));
        if start.Some? && end.Some? && start.value < end.value && IsBudget(Field(d, BUDGET)) then Valid else Invalid
  }

  /** What a parsed record means to its owner. */
  function StateOf(c: Clock, r: Value): State {
    var draft, pending, completed := Sanitized(Field(r, DRAFT)), Field(r, PENDING), Field(r, COMPLETED_ORDER_ID);
    if draft.None? then UNCERTAIN
    else match ValidPending(c, pending)
      case Throwing => UNCERTAIN
      case Valid => State(draft, Some(pending), Optional(completed), false)
      case Invalid => State(draft, None, Optional(completed), Truthy(pending))
  }

  /** readPlannedState. */
  function Read(c: Clock, stored: Option<Stored>, owner: string, f: Faults): Option<State> {
    if f.missing then None
    else if f.getItem then Some(UNCERTAIN)
    else match stored
      case None => None
      case Some(Unparsable) => Some(UNCERTAIN)
      case Some(Parsed(r)) =>
        if r.Null? then Some(UNCERTAIN)
        else if Field(r, OWNER_ID) != Text(owner) then None
        else Some(StateOf(c, r))
  }

  /** Something is pending, unclear or done. */
  predicate Taken(s: Option<State>) {
    && s.Some?
    && (s.value.pending.Some? || s.value.uncertain ||
        (s.value.completedOrderId.Some? && s.value.completedOrderId.value != ""))
  }

  // ---------------------------------------------------------------- writing

  function Record(owner: string, draft: Value, pending: Value, completed: Value): Value {
    Object(map[
      SCHEMA_VERSION := Number(1.0), OWNER_ID := Text(owner), DRAFT := draft, PENDING := pending,
      COMPLETED_ORDER_ID := completed, Other("uncertain") := Boolean(false)])
  }

  /** write. */
  function AfterWrite(stored: Option<Stored>, owner: string, record: Value, f: Faults): (Option<Stored>, bool) {
    if owner == "" || f.missing || f.setItem then (stored, false) else (Some(Parsed(Kept(record))), true)
  }

  /** savePlannedDraft. */
  function AfterSave(c: Clock, stored: Option<Stored>, owner: string, v: Value, f: Faults): (Option<Stored>, bool) {
    var d := Sanitized(v);
    if d.None? || Taken(Read(c, stored, owner, f)) then (stored, false)
    else AfterWrite(stored, owner, Record(owner, DraftValue(d.value), Null, Null), f)
  }

  /** beginPlannedSubmission; id is the fresh random UUID. */
  function AfterBegin(c: Clock, stored: Option<Stored>, owner: string, draft: Value, id: string, now: int, f: Faults)
    : (Option<Stored>, Option<Pending>)
  {
    var payload := PlannedSubmission(c, draft, now);
    if Taken(Read(c, stored, owner, f)) || payload.None? then (stored, None)
    else
      var p := Pending(id, payload.value);
      var (after, ok) := AfterWrite(stored, owner, Record(owner, draft, PendingValue(p), Null), f);
      (after, if ok then Some(p) else None)
  }

  /** settlePlannedSubmission; empty: the empty draft at that moment. */
  function AfterSettle(
    c: Clock, stored: Option<Stored>, owner: string, requestId: string, orderId: string, empty: Draft, f: Faults)
    : (Option<Stored>, bool)
  {
    var s := Read(c, stored, owner, f);
    if orderId == "" || s.None? || s.value.pending.None? ||
       Field(s.value.pending.value, CLIENT_REQUEST_ID) != Text(requestId)
    then (stored, false)
    else AfterWrite(stored, owner, Record(owner, DraftValue(empty), Null, Text(orderId)), f)
  }

  /** clearPlannedDraft. */
  function AfterClear(stored: Option<Stored>, f: Faults): Option<Stored> {
    if f.missing || f.removeItem then stored else None
  }

  class PlannedDraftStore {
    const clock: Clock
    var stored: Option<Stored>

    constructor (clock: Clock)
      ensures this.clock == clock && stored == None
    {
      this.clock, stored := clock, None;
    }

    method Write(owner: string, record: Value, f: Faults) returns (ok: bool)
      modifies this
      ensures (stored, ok) == AfterWrite(old(stored), owner, record, f)
    {
      if owner == "" || f.missing || f.setItem { return false; }
      stored := Some(Parsed(Kept(record)));
      return true;
    }

    method Save(owner: string, v: Value, f: Faults) returns (ok: bool)
      modifies this
      ensures (stored, ok) == AfterSave(clock, old(stored), owner, v, f)
    {
      var d, current := Sanitized(v), Read(clock, stored, owner, f);
      if d.None? || Taken(current) { return false; }
      ok := Write(owner, Record(owner, DraftValue(d.value), Null, Null), f);
    }

    method Begin(owner: string, draft: Value, id: string, now: int, f: Faults) returns (r: Option<Pending>)
      modifies this
      ensures (stored, r) == AfterBegin(clock, old(stored), owner, draft, id, now, f)
    {
      if Taken(Read(clock, stored, owner, f)) { return None; }
      var payload := PlannedSubmission(clock, draft, now);
      if payload.None? { return None; }
      var pending := Pending(id, payload.value);
      var ok := Write(owner, Record(owner, draft, PendingValue(pending), Null), f);
      return if ok then Some(pending) else None;
    }

    method Settle(owner: string, requestId: string, orderId: string, empty: Draft, f: Faults) returns (ok: bool)
      modifies this
      ensures (stored, ok) == AfterSettle(clock, old(stored), owner, requestId, orderId, empty, f)
    {
      var s := Read(clock, stored, owner, f);
      if orderId == "" || s.None? || s.value.pending.None? { return false; }
      if Field(s.value.pending.value, CLIENT_REQUEST_ID) != Text(requestId) { return false; }
      ok := Write(owner, Record(owner, DraftValue(empty), Null, Text(orderId)), f);
    }

    method Clear(f: Faults)
      modifies this
      ensures stored == AfterClear(old(stored), f)
    {
      if !f.missing && !f.removeItem { stored := None; }
    }
  }
}
