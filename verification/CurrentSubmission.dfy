/** What an order draft and a planned draft are submitted as. */
module CurrentSubmission {
  import opened Options
  import opened JsText
  import opened OrderSubmission
  import opened PlannedDraft
  import opened PlannedDraftLaws
  import Pending = PendingAnswers
  import PlannedAnswers

  /** A draft is submitted with its address text as the address, the coordinates of its pin and no
      empty optional text; it is refused while its location must be confirmed and when what it says
      breaks a rule. */
  lemma CurrentOrderIs(order: Value, s: Submission)
    requires Field(order, CATEGORY_ID) == s.categoryId
    requires Field(order, DESCRIPTION) == Text(s.description)
    requires Field(order, ADDRESS_TEXT) == Text(s.address)
    requires Field(order, DISTRICT) == Text(s.district)
    requires Field(order, PHOTO_PATHS) == TextValues(s.photoPaths)
    requires Field(order, GEO) == Object(map[LAT := Number(s.lat), LNG := Number(s.lng)])
    requires OrUndefined(Field(order, ENTRANCE)) == OptionalValue(s.entrance)
    requires OrUndefined(Field(order, FLOOR)) == OptionalValue(s.floor)
    requires OrUndefined(Field(order, APARTMENT)) == OptionalValue(s.apartment)
    requires OrUndefined(Field(order, ADDRESS_COMMENT)) == OptionalValue(s.addressComment)
    ensures CurrentOrder(order)
         == if Truthy(Field(order, LOCATION_NEEDS_CONFIRMATION)) then Refused
            else if Pending.Meets(s) then Accepted(s) else Refused
  {
    RestoredCarries(order, s);
    CarriesChecked(FromDraft(order), s);
    SubmittedIsChecked(s);
    Pending.ValidIff(s);
    hide FromDraft, Submitted, CheckedAgain, ToValue, Field, TextValues, Truthy, OrUndefined;
  }

  /** Without a pin reading its coordinates throws, unless the location must be confirmed first. */
  lemma NoPinThrows(order: Value)
    requires Field(order, GEO) == Undefined || Field(order, GEO) == Null
    ensures CurrentOrder(order) == if Truthy(Field(order, LOCATION_NEEDS_CONFIRMATION)) then Refused else Throws
  {
  }

  function Given(text: string): Option<string> { if text == "" then None else Some(text) }

  /** What a planned draft asks for: its texts trimmed, at the default coordinates. */
  function Wanted(d: Draft): Submission {
    Submission(
      Text(d.categoryId), Trim(d.description), Trim(d.address), Trim(d.district), 51.1605, 71.4704, d.photoPaths,
      Given(d.entrance), Given(d.floor), Given(d.apartment), Given(d.addressComment))
  }

  lemma DraftKeys(d: Draft)
    ensures var v := DraftValue(d); v.Object? && GEO !in v.fields && LOCATION_NEEDS_CONFIRMATION !in v.fields
  {
    hide TextValues;
  }

  lemma OneField(v: Value, key: Property, x: Value, address: Value)
    requires v.Object? && Field(v, key) == x && x != Undefined && key != ADDRESS_TEXT
    ensures Field(Spread(EMPTY_ORDER, v, ADDRESS_TEXT, address), key) == x
  {
    SpreadOver(v, key, address);
  }

  lemma OptionalGiven(text: string)
    ensures OrUndefined(Text(text)) == OptionalValue(Given(text))
  {
  }

  /** A planned draft is submitted as what it asks for, exactly if that meets the rules. */
  lemma PlannedOrderIs(d: Draft)
    ensures CurrentOrder(OrderOf(d)) == if Pending.Meets(Wanted(d)) then Accepted(Wanted(d)) else Refused
  {
    var e := d.(description := Trim(d.description), district := Trim(d.district));
    var v, a := DraftValue(e), Text(Trim(d.address));
    PlannedAnswers.DraftTexts(e);
    PlannedAnswers.DraftRest(e);
    DraftKeys(e);
    SpreadUnder(v, a);
    hide Spread, DraftValue, Field, TextValues, OptionalValue, OrUndefined, Truthy, CurrentOrder, Pending.Meets, Trim;
    OneField(v, CATEGORY_ID, Text(e.categoryId), a);
    OneField(v, DESCRIPTION, Text(e.description), a);
    OneField(v, DISTRICT, Text(e.district), a);
    OneField(v, PHOTO_PATHS, TextValues(e.photoPaths), a);
    OneField(v, ENTRANCE, Text(e.entrance), a);
    OneField(v, FLOOR, Text(e.floor), a);
    OneField(v, APARTMENT, Text(e.apartment), a);
    OneField(v, ADDRESS_COMMENT, Text(e.addressComment), a);
    OptionalGiven(e.entrance);
    OptionalGiven(e.floor);
    OptionalGiven(e.apartment);
    OptionalGiven(e.addressComment);
    NotConfirming();
    CurrentOrderIs(OrderOf(d), Wanted(d));
  }

  lemma NotConfirming()
    ensures !Truthy(Undefined)
  {
  }

  /** A planned request is for what the draft asks for, at the slot chosen, with its budget. */
  lemma {:induction false} RequestIsWanted(c: Clock, draft: Value, now: int)
    requires PlannedSubmission(c, draft, now).Some?
    ensures var p, d := PlannedSubmission(c, draft, now).value, Sanitized(draft).value;
            && Sanitized(draft).Some? && c.slot(d.date, d.slotIndex).Some?
            && p.submission == Wanted(d) && Pending.Meets(p.submission)
            && p.slotStart == c.iso(c.slot(d.date, d.slotIndex).value.0)
            && p.slotEnd == c.iso(c.slot(d.date, d.slotIndex).value.1)
            && (p.budget.None? <==> d.budget == "")
            && (p.budget.Some? ==> AllDigits(d.budget) && p.budget.value == DigitsValue(d.budget))
  {
    hide Sanitized, CurrentOrder, OrderOf, DigitsValue, Wanted, Pending.Meets;
    var d := Sanitized(draft).value;
    PlannedOrderIs(d);
  }
}
