/** What a planned submission stores it reads back, and one account issues one request between
    clearings. */
module PlannedDraftLaws {
  import opened Options
  import opened OrderSubmission
  import opened PlannedDraft

  /** Date.parse reads what toISOString writes, and slots end after they start. */
  ghost predicate Faithful(c: Clock) {
    && (forall t :: c.parse(Text(c.iso(t))) == Some(t))
    && (forall date, n :: c.slot(date, n).Some? ==> c.slot(date, n).value.0 < c.slot(date, n).value.1)
  }

  // ---------------------------------------------------------------- the draft

  lemma PathsKept(v: Value)
    requires ArePaths(v)
    ensures Kept(v) == v
  {
    assert Kept(v).items == v.items;
  }

  lemma KeptSame(v: Value, key: Property)
    requires v.Object? && Kept(Field(v, key)) == Field(v, key)
    ensures Field(Kept(v), key) == Field(v, key)
  {
    KeptField(v, key);
  }

  ghost predicate SameDraftFields(v: Value, w: Value) {
    && Field(v, CATEGORY_ID) == Field(w, CATEGORY_ID) && Field(v, DESCRIPTION) == Field(w, DESCRIPTION)
    && Field(v, ADDRESS) == Field(w, ADDRESS) && Field(v, DISTRICT) == Field(w, DISTRICT)
    && Field(v, ENTRANCE) == Field(w, ENTRANCE) && Field(v, FLOOR) == Field(w, FLOOR)
    && Field(v, APARTMENT) == Field(w, APARTMENT) && Field(v, ADDRESS_COMMENT) == Field(w, ADDRESS_COMMENT)
    && Field(v, BUDGET) == Field(w, BUDGET) && Field(v, DATE) == Field(w, DATE)
    && Field(v, SLOT_INDEX) == Field(w, SLOT_INDEX) && Field(v, PHOTO_PATHS) == Field(w, PHOTO_PATHS)
  }

  ghost predicate PlainDraftFields(v: Value) {
    && v.Object?
    && Field(v, CATEGORY_ID).Text? && Field(v, DESCRIPTION).Text? && Field(v, ADDRESS).Text?
    && Field(v, DISTRICT).Text? && Field(v, ENTRANCE).Text? && Field(v, FLOOR).Text?
    && Field(v, APARTMENT).Text? && Field(v, ADDRESS_COMMENT).Text? && Field(v, BUDGET).Text?
    && Field(v, DATE).Text? && Field(v, SLOT_INDEX).Number? && ArePaths(Field(v, PHOTO_PATHS))
  }

  lemma PlainKept(v: Value)
    requires PlainDraftFields(v)
    ensures SameDraftFields(v, Kept(v))
  {
    PathsKept(Field(v, PHOTO_PATHS));
    KeptSame(v, CATEGORY_ID);
    KeptSame(v, DESCRIPTION);
    KeptSame(v, ADDRESS);
    KeptSame(v, DISTRICT);
    KeptSame(v, ENTRANCE);
    KeptSame(v, FLOOR);
    KeptSame(v, APARTMENT);
    KeptSame(v, ADDRESS_COMMENT);
    KeptSame(v, BUDGET);
    KeptSame(v, DATE);
    KeptSame(v, SLOT_INDEX);
    KeptSame(v, PHOTO_PATHS);
  }

  lemma SanitizedIsPlain(v: Value)
    requires Sanitized(v).Some?
    ensures PlainDraftFields(v)
  {
  }

  lemma SameSanitized(v: Value, w: Value)
    requires SameDraftFields(v, w)
    ensures Sanitized(v) == Sanitized(w)
  {
  }

  /** A draft that is accepted is accepted unchanged from storage. */
  lemma {:induction false} DraftSurvives(v: Value)
    requires Sanitized(v).Some?
    ensures Sanitized(Kept(v)) == Sanitized(v)
  {
    SanitizedIsPlain(v);
    PlainKept(v);
    SameSanitized(v, Kept(v));
  }

  // ---------------------------------------------------------------- the payload

  /** A submission made from a planned draft: default coordinates, no empty optional text. */
  ghost predicate Planned(s: Submission) {
    && IsSubmission(s)
    && IsUuidValue(s.categoryId)
    && s.lat == 51.1605 && s.lng == 71.4704
    && s.entrance != Some("") && s.floor != Some("") && s.apartment != Some("") && s.addressComment != Some("")
  }

  lemma OrderGeo(d: Draft)
    ensures Field(OrderOf(d), GEO) == Object(map[LAT := Number(51.1605), LNG := Number(71.4704)])
  {
  }

  lemma Coordinates(draft: Value)
    requires Field(draft, GEO) == Object(map[LAT := Number(51.1605), LNG := Number(71.4704)])
    ensures Field(FromDraft(draft), LAT) == Number(51.1605) && Field(FromDraft(draft), LNG) == Number(71.4704)
  {
  }

  lemma OptionalsNotEmpty(draft: Value)
    ensures Field(FromDraft(draft), ENTRANCE) != Text("") && Field(FromDraft(draft), FLOOR) != Text("")
    ensures Field(FromDraft(draft), APARTMENT) != Text("") && Field(FromDraft(draft), ADDRESS_COMMENT) != Text("")
  {
  }

  lemma SubmittedParts(v: Value, s: Submission)
    requires Submitted(v) == Some(s)
    ensures IsUuidValue(s.categoryId) && Field(v, LAT) == Number(s.lat) && Field(v, LNG) == Number(s.lng)
    ensures s.entrance == Optional(Field(v, ENTRANCE)) && s.floor == Optional(Field(v, FLOOR))
    ensures s.apartment == Optional(Field(v, APARTMENT)) && s.addressComment == Optional(Field(v, ADDRESS_COMMENT))
  {
  }

  lemma AcceptedIsPlanned(d: Draft, s: Submission)
    requires CurrentOrder(OrderOf(d)) == Accepted(s)
    ensures Planned(s)
  {
    var v := FromDraft(OrderOf(d));
    SubmissionIsStable(v);
    SubmittedParts(v, s);
    OrderGeo(d);
    Coordinates(OrderOf(d));
    OptionalsNotEmpty(OrderOf(d));
  }

  /** The stored payload's properties; the coordinates are not among them. */
  ghost predicate CarriesPayload(k: Value, p: Payload) {
    var s := p.submission;
    && k.Object?
    && GEO !in k.fields && LOCATION_NEEDS_CONFIRMATION !in k.fields
    && Field(k, CATEGORY_ID) == s.categoryId
    && Field(k, DESCRIPTION) == Text(s.description)
    && Field(k, ADDRESS) == Text(s.address)
    && Field(k, DISTRICT) == Text(s.district)
    && Field(k, PHOTO_PATHS) == TextValues(s.photoPaths)
    && Field(k, SLOT_START) == Text(p.slotStart)
    && Field(k, SLOT_END) == Text(p.slotEnd)
    && Field(k, BUDGET) == (if p.budget.Some? then Number(p.budget.value as real) else Undefined)
    && Has(k, ENTRANCE, s.entrance) && Has(k, FLOOR, s.floor) && Has(k, APARTMENT, s.apartment)
    && Has(k, ADDRESS_COMMENT, s.addressComment)
  }

  ghost predicate Has(k: Value, key: Property, o: Option<string>)
    requires k.Object?
  {
    if o.Some? then Field(k, key) == Text(o.value) else key !in k.fields
  }

  /** k holds what JSON keeps of v. */
  ghost predicate IsKept(v: Value, k: Value) {
    && k.Object?
    && (forall key :: Field(k, key) == Kept(Field(v, key)))
    && (forall key :: key in k.fields ==> Field(v, key) != Undefined)
  }

  lemma KeptIs(v: Value)
    requires v.Object?
    ensures IsKept(v, Kept(v))
  {
    forall key ensures Field(Kept(v), key) == Kept(Field(v, key)) {
      KeptField(v, key);
    }
  }

  ghost predicate CarriesOptionals(v: Value, s: Submission) {
    && Field(v, ENTRANCE) == OptionalValue(s.entrance)
    && Field(v, FLOOR) == OptionalValue(s.floor)
    && Field(v, APARTMENT) == OptionalValue(s.apartment)
    && Field(v, ADDRESS_COMMENT) == OptionalValue(s.addressComment)
  }

  ghost predicate CarriesRequired(v: Value, p: Payload) {
    var s := p.submission;
    && Field(v, GEO) == Undefined
    && Field(v, LOCATION_NEEDS_CONFIRMATION) == Undefined
    && Field(v, CATEGORY_ID) == s.categoryId
    && Field(v, DESCRIPTION) == Text(s.description)
    && Field(v, ADDRESS) == Text(s.address)
    && Field(v, DISTRICT) == Text(s.district)
    && Field(v, PHOTO_PATHS) == TextValues(s.photoPaths)
    && Field(v, SLOT_START) == Text(p.slotStart)
    && Field(v, SLOT_END) == Text(p.slotEnd)
    && Field(v, BUDGET) == if p.budget.Some? then Number(p.budget.value as real) else Undefined
  }

  lemma PayloadRequired(p: Payload)
    ensures CarriesRequired(PayloadValue(p), p)
  {
    var v, s := PayloadValue(p), p.submission;
    assert Field(v, GEO) == Undefined && Field(v, LOCATION_NEEDS_CONFIRMATION) == Undefined;
    assert Field(v, CATEGORY_ID) == s.categoryId && Field(v, DESCRIPTION) == Text(s.description);
    assert Field(v, ADDRESS) == Text(s.address) && Field(v, DISTRICT) == Text(s.district);
  }

  lemma PayloadOptionals(p: Payload)
    ensures CarriesOptionals(PayloadValue(p), p.submission)
  {
  }

  lemma KeptCarriesPayload(v: Value, k: Value, p: Payload)
    requires IsKept(v, k) && CarriesRequired(v, p) && CarriesOptionals(v, p.submission)
    requires Kept(p.submission.categoryId) == p.submission.categoryId
    requires Kept(TextValues(p.submission.photoPaths)) == TextValues(p.submission.photoPaths)
    ensures CarriesPayload(k, p)
  {
    hide Field;
  }

  lemma PayloadKept(v: Value, p: Payload)
    requires v == PayloadValue(p) && IsUuidValue(p.submission.categoryId)
    ensures CarriesPayload(Kept(v), p)
  {
    UuidKept(p.submission.categoryId);
    TextsBack(p.submission.photoPaths);
    PayloadRequired(p);
    PayloadOptionals(p);
    KeptIs(v);
    KeptCarriesPayload(v, Kept(v), p);
  }

  lemma SpreadField(over: Value, key: Property, address: Value)
    requires over.Object?
    ensures Field(Spread(EMPTY_ORDER, over, ADDRESS_TEXT, address), key)
         == if key == ADDRESS_TEXT then address
            else if key in over.fields then over.fields[key] else Field(EMPTY_ORDER, key)
  {
  }

  /** An optional text that was left out comes back as left out. */
  lemma SpreadOptional(k: Value, key: Property, o: Option<string>, address: Value)
    requires k.Object? && Has(k, key, o) && o != Some("") && key in {ENTRANCE, FLOOR, APARTMENT, ADDRESS_COMMENT}
    ensures OrUndefined(Field(Spread(EMPTY_ORDER, k, ADDRESS_TEXT, address), key)) == OptionalValue(o)
  {
    SpreadField(k, key, address);
  }

  lemma SpreadOver(over: Value, key: Property, address: Value)
    requires over.Object? && key != ADDRESS_TEXT && Field(over, key) != Undefined
    ensures Field(Spread(EMPTY_ORDER, over, ADDRESS_TEXT, address), key) == Field(over, key)
  {
    SpreadField(over, key, address);
  }

  lemma SpreadUnder(over: Value, address: Value)
    requires over.Object? && GEO !in over.fields && LOCATION_NEEDS_CONFIRMATION !in over.fields
    ensures var order := Spread(EMPTY_ORDER, over, ADDRESS_TEXT, address);
            && Field(order, ADDRESS_TEXT) == address
            && Field(order, GEO) == Object(map[LAT := Number(51.1605), LNG := Number(71.4704)])
            && Field(order, LOCATION_NEEDS_CONFIRMATION) == Undefined
  {
    SpreadField(over, GEO, address);
    SpreadField(over, ADDRESS_TEXT, address);
    SpreadField(over, LOCATION_NEEDS_CONFIRMATION, address);
  }

  lemma RestoredFields(k: Value, p: Payload, order: Value)
    requires CarriesPayload(k, p) && p.submission.categoryId != Undefined
    requires order == Spread(EMPTY_ORDER, k, ADDRESS_TEXT, Field(k, ADDRESS))
    ensures Field(order, CATEGORY_ID) == p.submission.categoryId
    ensures Field(order, DESCRIPTION) == Text(p.submission.description)
    ensures Field(order, ADDRESS_TEXT) == Text(p.submission.address)
    ensures Field(order, DISTRICT) == Text(p.submission.district)
    ensures Field(order, PHOTO_PATHS) == TextValues(p.submission.photoPaths)
    ensures Field(order, GEO) == Object(map[LAT := Number(51.1605), LNG := Number(71.4704)])
    ensures Field(order, LOCATION_NEEDS_CONFIRMATION) == Undefined
  {
    var address := Field(k, ADDRESS);
    SpreadOver(k, CATEGORY_ID, address);
    SpreadOver(k, DESCRIPTION, address);
    SpreadOver(k, DISTRICT, address);
    SpreadOver(k, PHOTO_PATHS, address);
    SpreadUnder(k, address);
  }

  lemma RestoredCarries(order: Value, s: Submission)
    requires Field(order, CATEGORY_ID) == s.categoryId
    requires Field(order, DESCRIPTION) == Text(s.description)
    requires Field(order, ADDRESS_TEXT) == Text(s.address)
    requires Field(order, DISTRICT) == Text(s.district)
    requires Field(order, PHOTO_PATHS) == TextValues(s.photoPaths)
    requires Field(order, GEO) == Object(map[LAT := Number(s.lat), LNG := Number(s.lng)])
    requires OrUndefined(Field(order, ENTRANCE)) == OptionalValue(s.entrance)
    requires OrUndefined(Field(order, FLOOR)) == OptionalValue(s.floor)
    requires OrUndefined(Field(order, APARTMENT)) == OptionalValue(s.apartment)
    requires OrUndefined(Field(order, ADDRESS_COMMENT)) == OptionalValue(s.addressComment)
    ensures Carries(FromDraft(order), s)
  {
    FromDraftTexts(order);
    FromDraftPlace(order);
    FromDraftRest(order);
    FromDraftOptionals(order);
    var geo := Field(order, GEO);
    assert Field(geo, LAT) == Number(s.lat) && Field(geo, LNG) == Number(s.lng);
  }

  lemma FromDraftTexts(order: Value)
    ensures var v := FromDraft(order);
            && v.Object?
            && Field(v, CATEGORY_ID) == Field(order, CATEGORY_ID)
            && Field(v, DESCRIPTION) == Field(order, DESCRIPTION)
  {
    hide OrUndefined;
  }

  lemma FromDraftPlace(order: Value)
    ensures var v := FromDraft(order);
            && Field(v, ADDRESS) == Field(order, ADDRESS_TEXT)
            && Field(v, DISTRICT) == Field(order, DISTRICT)
  {
    hide OrUndefined;
  }

  lemma FromDraftRest(order: Value)
    ensures var v := FromDraft(order);
            && Field(v, LAT) == Field(Field(order, GEO), LAT)
            && Field(v, LNG) == Field(Field(order, GEO), LNG)
            && Field(v, PHOTO_PATHS) == Field(order, PHOTO_PATHS)
  {
  }

  lemma FromDraftOptionals(order: Value)
    ensures var v := FromDraft(order);
            && Field(v, ENTRANCE) == OrUndefined(Field(order, ENTRANCE))
            && Field(v, FLOOR) == OrUndefined(Field(order, FLOOR))
            && Field(v, APARTMENT) == OrUndefined(Field(order, APARTMENT))
            && Field(v, ADDRESS_COMMENT) == OrUndefined(Field(order, ADDRESS_COMMENT))
  {
  }

  lemma CarriesIsChecked(v: Value, s: Submission)
    requires Carries(v, s) && IsSubmission(s)
    ensures Submitted(v) == Some(s)
  {
    SubmittedIsChecked(s);
  }

  /** The validator rebuilds the submission from the stored payload. */
  lemma {:induction false} PayloadReadsBack(k: Value, p: Payload)
    requires CarriesPayload(k, p) && Planned(p.submission)
    ensures CurrentOrder(Spread(EMPTY_ORDER, k, ADDRESS_TEXT, Field(k, ADDRESS))) == Accepted(p.submission)
  {
    hide Spread, FromDraft, Submitted, Carries, OptionalValue, OrUndefined, IsSubmission, TextValues;
    var order, s := Spread(EMPTY_ORDER, k, ADDRESS_TEXT, Field(k, ADDRESS)), p.submission;
    RestoredFields(k, p, order);
    SpreadOptional(k, ENTRANCE, s.entrance, Field(k, ADDRESS));
    SpreadOptional(k, FLOOR, s.floor, Field(k, ADDRESS));
    SpreadOptional(k, APARTMENT, s.apartment, Field(k, ADDRESS));
    SpreadOptional(k, ADDRESS_COMMENT, s.addressComment, Field(k, ADDRESS));
    RestoredCarries(order, s);
    CarriesIsChecked(FromDraft(order), s);
  }

  // ---------------------------------------------------------------- the pending request

  /** A request as beginPlannedSubmission makes it. */
  ghost predicate WellBegun(c: Clock, p: Pending) {
    && IsUuid(p.clientRequestId)
    && Planned(p.payload.submission)
    && (exists a, b :: a < b && p.payload.slotStart == c.iso(a) && p.payload.slotEnd == c.iso(b))
    && (p.payload.budget.Some? ==> p.payload.budget.value <= MAX_BUDGET)
  }

  lemma SubmissionIsWell(c: Clock, draft: Value, id: string, now: int)
    requires Faithful(c) && IsUuid(id) && PlannedSubmission(c, draft, now).Some?
    ensures WellBegun(c, Pending(id, PlannedSubmission(c, draft, now).value)) && Sanitized(draft).Some?
  {
    var d := Sanitized(draft).value;
    AcceptedIsPlanned(d, CurrentOrder(OrderOf(d)).submission);
  }

  lemma PendingFields(p: Pending)
    ensures var v := Kept(PendingValue(p));
            && Field(v, CLIENT_REQUEST_ID) == Text(p.clientRequestId)
            && Field(v, PAYLOAD) == Kept(PayloadValue(p.payload))
  {
    KeptField(PendingValue(p), CLIENT_REQUEST_ID);
    KeptField(PendingValue(p), PAYLOAD);
  }

  lemma PendingIsValid(c: Clock, p: Pending)
    requires Faithful(c) && WellBegun(c, p)
    ensures ValidPending(c, Kept(PendingValue(p))) == Valid
  {
    PendingFields(p);
    PayloadKept(PayloadValue(p.payload), p.payload);
    CarriedIsValid(c, p, Kept(PendingValue(p)), Kept(PayloadValue(p.payload)));
  }

  lemma CarriedIsValid(c: Clock, p: Pending, v: Value, k: Value)
    requires Faithful(c) && WellBegun(c, p) && CarriesPayload(k, p.payload)
    requires Field(v, CLIENT_REQUEST_ID) == Text(p.clientRequestId) && Field(v, PAYLOAD) == k
    ensures ValidPending(c, v) == Valid
  {
    hide Planned, Field, Submitted, IsUuid;
    PayloadReadsBack(k, p.payload);
    var a, b :| a < b && p.payload.slotStart == c.iso(a) && p.payload.slotEnd == c.iso(b);
    assert c.parse(Field(k, SLOT_START)) == Some(a) && c.parse(Field(k, SLOT_END)) == Some(b);
    BudgetBack(k, p.payload);
    ValidWhen(c, v, k, p.payload.submission, a, b);
  }

  lemma BudgetBack(k: Value, p: Payload)
    requires CarriesPayload(k, p) && (p.budget.Some? ==> p.budget.value <= MAX_BUDGET)
    ensures IsBudget(Field(k, BUDGET))
  {
  }

  lemma ValidWhen(c: Clock, v: Value, d: Value, s: Submission, a: int, b: int)
    requires Field(v, PAYLOAD) == d && d.Object? && IsUuidValue(Field(v, CLIENT_REQUEST_ID))
    requires CurrentOrder(Spread(EMPTY_ORDER, d, ADDRESS_TEXT, Field(d, ADDRESS))) == Accepted(s)
    requires c.parse(Field(d, SLOT_START)) == Some(a) && c.parse(Field(d, SLOT_END)) == Some(b) && a < b
    requires IsBudget(Field(d, BUDGET))
    ensures ValidPending(c, v) == Valid
  {
    hide Spread, CurrentOrder, IsBudget, IsUuidValue, Field;
  }

  lemma RecordFields(owner: string, draft: Value, pending: Value, completed: Value)
    ensures var r := Kept(Record(owner, draft, pending, completed));
            && r.Object?
            && Field(r, OWNER_ID) == Text(owner)
            && Field(r, DRAFT) == Kept(draft)
            && Field(r, PENDING) == Kept(pending)
            && Field(r, COMPLETED_ORDER_ID) == Kept(completed)
  {
    hide Kept;
    var m := Record(owner, draft, pending, completed);
    KeptPlain(m, OWNER_ID, Text(owner));
    KeptField(m, DRAFT);
    KeptField(m, PENDING);
    KeptField(m, COMPLETED_ORDER_ID);
  }

  lemma BegunState(c: Clock, owner: string, draft: Value, p: Pending)
    requires Faithful(c) && WellBegun(c, p) && Sanitized(draft).Some?
    ensures StateOf(c, Kept(Record(owner, draft, PendingValue(p), Null)))
         == State(Sanitized(draft), Some(Kept(PendingValue(p))), None, false)
  {
    RecordFields(owner, draft, PendingValue(p), Null);
    DraftSurvives(draft);
    PendingIsValid(c, p);
  }

  lemma StoredState(c: Clock, r: Value, owner: string, f: Faults)
    requires r.Object? && Field(r, OWNER_ID) == Text(owner) && !f.missing && !f.getItem
    ensures Read(c, Some(Parsed(r)), owner, f) == Some(StateOf(c, r))
  {
  }

  /** A submission just begun reads back as the same request, pending and not uncertain: same
      key, same draft, and a payload that stands for the same submission. */
  lemma {:induction false} BegunReadsBack(c: Clock, stored: Option<Stored>, owner: string, draft: Value, id: string,
                                          now: int, f: Faults, g: Faults)
    requires Faithful(c) && IsUuid(id) && !g.missing && !g.getItem
    requires AfterBegin(c, stored, owner, draft, id, now, f).1.Some?
    ensures var (after, p) := AfterBegin(c, stored, owner, draft, id, now, f);
            var s := Read(c, after, owner, g);
            && s == Some(State(Sanitized(draft), Some(Kept(PendingValue(p.value))), None, false))
            && Field(s.value.pending.value, CLIENT_REQUEST_ID) == Text(id)
            && CarriesPayload(Field(s.value.pending.value, PAYLOAD), p.value.payload)
            && Some(p.value.payload) == PlannedSubmission(c, draft, now)
  {
    var payload := PlannedSubmission(c, draft, now);
    BeginStores(c, stored, owner, draft, id, now, f);
    var p := Pending(id, payload.value);
    SubmissionIsWell(c, draft, id, now);
    BegunState(c, owner, draft, p);
    RecordFields(owner, draft, PendingValue(p), Null);
    StoredState(c, Kept(Record(owner, draft, PendingValue(p), Null)), owner, g);
    PendingFields(p);
    PayloadKept(PayloadValue(p.payload), p.payload);
  }

  lemma BeginStores(c: Clock, stored: Option<Stored>, owner: string, draft: Value, id: string, now: int, f: Faults)
    ensures var payload := PlannedSubmission(c, draft, now);
            var (after, p) := AfterBegin(c, stored, owner, draft, id, now, f);
            if p.Some? then
              && payload.Some? && p == Some(Pending(id, payload.value)) && !Taken(Read(c, stored, owner, f))
              && after == Some(Parsed(Kept(Record(owner, draft, PendingValue(p.value), Null))))
            else after == stored
  {
  }

  // ---------------------------------------------------------------- the fate of a record

  /** Steps of any account in the tab. */
  datatype Event =
    | Begin(account: string, draft: Value, id: string, now: int, f: Faults)
    | Save(account: string, draft: Value, f: Faults)
    | Settle(account: string, requestId: string, orderId: string, empty: Draft, f: Faults)
    | Clear(f: Faults)

  /** Random identifiers are UUIDs. */
  function Step(c: Clock, stored: Option<Stored>, e: Event): (Option<Stored>, Option<Pending>) {
    match e
    case Begin(account, draft, id, now, f) =>
      if IsUuid(id) then AfterBegin(c, stored, account, draft, id, now, f) else (stored, None)
    case Save(account, draft, f) => (AfterSave(c, stored, account, draft, f).0, None)
    case Settle(account, requestId, orderId, empty, f) =>
      (AfterSettle(c, stored, account, requestId, orderId, empty, f).0, None)
    case Clear(f) => (AfterClear(stored, f), None)
  }

  function Run(c: Clock, stored: Option<Stored>, events: seq<Event>): Option<Stored> {
    if events == [] then stored else Step(c, Run(c, stored, events[..|events| - 1]), events[|events| - 1]).0
  }

  /** The record is the account's, and something in it is pending, unclear or done. */
  ghost predicate Occupied(c: Clock, stored: Option<Stored>, owner: string) {
    && stored.Some? && stored.value.Parsed? && stored.value.value.Object?
    && Field(stored.value.value, OWNER_ID) == Text(owner)
    && Taken(Some(StateOf(c, stored.value.value)))
  }

  /** Storage shows an account other than the owner nothing, and takes what it writes. */
  predicate Replaces(owner: string, account: string, f: Faults) {
    account != owner && account != "" && !f.missing && !f.getItem && !f.setItem
  }

  /** The steps that take an occupied record away from its owner. */
  predicate TakesRecord(c: Clock, owner: string, e: Event) {
    match e
    case Begin(account, draft, id, now, f) =>
      Replaces(owner, account, f) && IsUuid(id) && PlannedSubmission(c, draft, now).Some?
    case Save(account, draft, f) => Replaces(owner, account, f) && Sanitized(draft).Some?
    case Settle(_, _, _, _, _) => false
    case Clear(f) => !f.missing && !f.removeItem
  }

  lemma OccupiedRefuses(c: Clock, stored: Option<Stored>, owner: string, f: Faults)
    requires Occupied(c, stored, owner)
    ensures f.missing || Taken(Read(c, stored, owner, f))
  {
  }

  /** Another account sees no record, or an unclear one. */
  lemma OthersRead(c: Clock, stored: Option<Stored>, owner: string, account: string, f: Faults)
    requires Occupied(c, stored, owner) && account != owner
    ensures Read(c, stored, account, f) == if !f.missing && f.getItem then Some(UNCERTAIN) else None
  {
    hide StateOf;
  }

  lemma BegunOccupies(
    c: Clock, stored: Option<Stored>, owner: string, draft: Value, id: string, now: int, f: Faults)
    requires Faithful(c) && IsUuid(id) && AfterBegin(c, stored, owner, draft, id, now, f).1.Some?
    ensures Occupied(c, AfterBegin(c, stored, owner, draft, id, now, f).0, owner)
  {
    BeginStores(c, stored, owner, draft, id, now, f);
    SubmissionIsWell(c, draft, id, now);
    var p := Pending(id, PlannedSubmission(c, draft, now).value);
    BegunState(c, owner, draft, p);
    RecordFields(owner, draft, PendingValue(p), Null);
    OccupiedBy(c, Kept(Record(owner, draft, PendingValue(p), Null)), owner,
               State(Sanitized(draft), Some(Kept(PendingValue(p))), None, false));
  }

  lemma OccupiedBy(c: Clock, r: Value, owner: string, s: State)
    requires r.Object? && Field(r, OWNER_ID) == Text(owner) && StateOf(c, r) == s && Taken(Some(s))
    ensures Occupied(c, Some(Parsed(r)), owner)
  {
  }

  lemma NothingPending(c: Clock)
    ensures ValidPending(c, Null) == Invalid
  {
  }

  lemma SettledOccupies(c: Clock, owner: string, empty: Value, orderId: string)
    requires orderId != ""
    ensures Occupied(c, Some(Parsed(Kept(Record(owner, empty, Null, Text(orderId))))), owner)
  {
    RecordFields(owner, empty, Null, Text(orderId));
    NothingPending(c);
  }

  lemma SettleStores(
    c: Clock, stored: Option<Stored>, owner: string, requestId: string, orderId: string, empty: Draft, f: Faults)
    ensures var after := AfterSettle(c, stored, owner, requestId, orderId, empty, f).0;
            || after == stored
            || (orderId != "" && after == Some(Parsed(Kept(Record(owner, DraftValue(empty), Null, Text(orderId))))))
  {
  }

  /** The owner's own steps leave the record occupied and issue nothing. */
  lemma OwnerKeeps(c: Clock, stored: Option<Stored>, owner: string, e: Event)
    requires Occupied(c, stored, owner) && !e.Clear? && e.account == owner
    ensures Step(c, stored, e).1.None? && Occupied(c, Step(c, stored, e).0, owner)
  {
    match e
    case Begin(_, draft, id, now, f) => OccupiedRefuses(c, stored, owner, f);
    case Save(_, draft, f) => OccupiedRefuses(c, stored, owner, f);
    case Settle(_, requestId, orderId, empty, f) =>
      SettleStores(c, stored, owner, requestId, orderId, empty, f);
      if orderId != "" { SettledOccupies(c, owner, DraftValue(empty), orderId); }
  }

  /** A record of one account is not another's. */
  lemma OtherRecord(c: Clock, owner: string, account: string, draft: Value, pending: Value)
    requires account != owner
    ensures !Occupied(c, Some(Parsed(Kept(Record(account, draft, pending, Null)))), owner)
  {
    RecordFields(account, draft, pending, Null);
    hide StateOf;
  }

  lemma OtherSave(c: Clock, stored: Option<Stored>, owner: string, account: string, draft: Value, f: Faults)
    requires Occupied(c, stored, owner) && account != owner
    ensures Occupied(c, AfterSave(c, stored, account, draft, f).0, owner)
       <==> !(Replaces(owner, account, f) && Sanitized(draft).Some?)
  {
    OthersRead(c, stored, owner, account, f);
    hide StateOf, Read, Sanitized;
    if Replaces(owner, account, f) && Sanitized(draft).Some? {
      OtherRecord(c, owner, account, DraftValue(Sanitized(draft).value), Null);
    }
  }

  lemma OtherBegin(
    c: Clock, stored: Option<Stored>, owner: string, account: string, draft: Value, id: string, now: int, f: Faults)
    requires Occupied(c, stored, owner) && account != owner
    ensures Occupied(c, AfterBegin(c, stored, account, draft, id, now, f).0, owner)
       <==> !(Replaces(owner, account, f) && PlannedSubmission(c, draft, now).Some?)
  {
    OthersRead(c, stored, owner, account, f);
    hide StateOf, Read, PlannedSubmission;
    if Replaces(owner, account, f) && PlannedSubmission(c, draft, now).Some? {
      OtherRecord(c, owner, account, draft, PendingValue(Pending(id, PlannedSubmission(c, draft, now).value)));
    }
  }

  lemma OtherSettle(
    c: Clock, stored: Option<Stored>, owner: string, account: string, requestId: string, orderId: string,
    empty: Draft, f: Faults)
    requires Occupied(c, stored, owner) && account != owner
    ensures AfterSettle(c, stored, account, requestId, orderId, empty, f).0 == stored
  {
    OthersRead(c, stored, owner, account, f);
  }

  /** An occupied record stays its owner's through a step if and only if the step is not a
      clearing, and not a draft saved or a request begun by another account, that storage lets
      through. */
  lemma {:induction false} RecordFate(c: Clock, stored: Option<Stored>, owner: string, e: Event)
    requires Occupied(c, stored, owner)
    ensures Occupied(c, Step(c, stored, e).0, owner) <==> !TakesRecord(c, owner, e)
  {
    if !e.Clear? && e.account == owner {
      OwnerKeeps(c, stored, owner, e);
    } else {
      hide Occupied;
      match e
      case Begin(account, draft, id, now, f) => OtherBegin(c, stored, owner, account, draft, id, now, f);
      case Save(account, draft, f) => OtherSave(c, stored, owner, account, draft, f);
      case Settle(account, requestId, orderId, empty, f) =>
        OtherSettle(c, stored, owner, account, requestId, orderId, empty, f);
      case Clear(f) => NoRecord(c, owner);
    }
  }

  lemma NoRecord(c: Clock, owner: string)
    ensures !Occupied(c, None, owner)
  {
  }

  // ---------------------------------------------------------------- one request

  /** The step issues a request of the account. */
  ghost predicate Issues(c: Clock, stored: Option<Stored>, owner: string, e: Event) {
    e.Begin? && e.account == owner && Step(c, stored, e).1.Some?
  }

  lemma IssueOccupies(c: Clock, stored: Option<Stored>, owner: string, e: Event)
    requires Faithful(c) && Issues(c, stored, owner, e)
    ensures Occupied(c, Step(c, stored, e).0, owner)
  {
    BegunOccupies(c, stored, owner, e.draft, e.id, e.now, e.f);
  }

  /** A record nobody takes stays occupied. */
  lemma {:induction false} StaysOccupied(c: Clock, stored: Option<Stored>, owner: string, events: seq<Event>)
    requires Occupied(c, stored, owner) && forall e :: e in events ==> !TakesRecord(c, owner, e)
    ensures Occupied(c, Run(c, stored, events), owner)
  {
    if events != [] {
      var n := |events| - 1;
      assert events[n] in events && forall e :: e in events[..n] ==> e in events;
      StaysOccupied(c, stored, owner, events[..n]);
      RecordFate(c, Run(c, stored, events[..n]), owner, events[n]);
    }
  }

  /** Whatever all the accounts and storage do: once an account has issued a request it issues
      the next one only after some step has taken its record. */
  lemma {:induction false} NextRequestNeedsTaking(
    c: Clock, stored: Option<Stored>, owner: string, first: Event, between: seq<Event>, second: Event)
    requires Faithful(c)
    requires Issues(c, stored, owner, first)
    requires Issues(c, Run(c, Step(c, stored, first).0, between), owner, second)
    ensures exists e :: e in between && TakesRecord(c, owner, e)
  {
    IssueOccupies(c, stored, owner, first);
    if forall e :: e in between ==> !TakesRecord(c, owner, e) {
      StaysOccupied(c, Step(c, stored, first).0, owner, between);
      OwnerKeeps(c, Run(c, Step(c, stored, first).0, between), owner, second);
    }
  }

  /** The requests the account issues along the way. */
  ghost function Issued(c: Clock, stored: Option<Stored>, owner: string, events: seq<Event>): nat {
    if events == [] then 0
    else
      var before := events[..|events| - 1];
      Issued(c, stored, owner, before)
      + if Issues(c, Run(c, stored, before), owner, events[|events| - 1]) then 1 else 0
  }

  lemma {:induction false} IssuedOccupies(c: Clock, stored: Option<Stored>, owner: string, events: seq<Event>)
    requires Faithful(c) && forall e :: e in events ==> !TakesRecord(c, owner, e)
    ensures var n := Issued(c, stored, owner, events);
            n <= 1 && (n == 1 ==> Occupied(c, Run(c, stored, events), owner))
  {
    if events != [] {
      var before, e := events[..|events| - 1], events[|events| - 1];
      assert e in events && forall d :: d in before ==> d in events;
      IssuedOccupies(c, stored, owner, before);
      var mid := Run(c, stored, before);
      if Issued(c, stored, owner, before) == 1 {
        RecordFate(c, mid, owner, e);
        if e.Begin? && e.account == owner { OwnerKeeps(c, mid, owner, e); }
      } else if Issues(c, mid, owner, e) {
        IssueOccupies(c, mid, owner, e);
      }
    }
  }

  /** In a run of all accounts in which nothing takes its record, an account issues at most one
      request. */
  lemma {:induction false} OneRequest(c: Clock, stored: Option<Stored>, owner: string, events: seq<Event>)
    requires Faithful(c) && forall e :: e in events ==> !TakesRecord(c, owner, e)
    ensures Issued(c, stored, owner, events) <= 1
  {
    IssuedOccupies(c, stored, owner, events);
  }

  /** An account alone in the tab issues at most one request between two clearings, whatever
      storage does. */
  lemma {:induction false} OneAccountOneRequest(
    c: Clock, stored: Option<Stored>, owner: string, events: seq<Event>)
    requires Faithful(c) && forall e :: e in events ==> !e.Clear? && e.account == owner
    ensures Issued(c, stored, owner, events) <= 1
  {
    OneRequest(c, stored, owner, events);
  }

  /** After another account's draft has replaced the record, the first account issues again
      exactly if its draft is complete. */
  lemma {:induction false} AnotherAccountReplaces(
    c: Clock, stored: Option<Stored>, owner: string, other: string, v: Value, draft: Value, id: string, now: int)
    requires Occupied(c, stored, owner) && owner != "" && other != "" && owner != other && Sanitized(v).Some?
    ensures var none := Faults(false, false, false, false);
            var after := AfterSave(c, stored, other, v, none).0;
            AfterBegin(c, after, owner, draft, id, now, none).1.Some? <==> PlannedSubmission(c, draft, now).Some?
  {
    var none := Faults(false, false, false, false);
    RecordFields(other, DraftValue(Sanitized(v).value), Null, Null);
    var after := AfterSave(c, stored, other, v, none).0;
    assert after == Some(Parsed(Kept(Record(other, DraftValue(Sanitized(v).value), Null, Null))));
    assert Read(c, after, owner, none) == None;
    BeginWhenFree(c, after, owner, draft, id, now, none);
  }

  lemma BeginWhenFree(c: Clock, stored: Option<Stored>, owner: string, draft: Value, id: string, now: int, f: Faults)
    requires !Taken(Read(c, stored, owner, f)) && owner != "" && !f.missing && !f.setItem
    ensures AfterBegin(c, stored, owner, draft, id, now, f).1.Some? <==> PlannedSubmission(c, draft, now).Some?
  {
  }
}
