/** The submitted part of a new order and how it survives session storage
    (packages/ui/src/new-order-draft.ts:98-114). */
module OrderSubmission {
  import opened Options

  /** Property names. */
  datatype Property =
    | CATEGORY_ID | DESCRIPTION | ADDRESS | DISTRICT | LAT | LNG | PHOTO_PATHS
    | ENTRANCE | FLOOR | APARTMENT | ADDRESS_COMMENT
    | ADDRESS_TEXT | GEO | LOCATION_NEEDS_CONFIRMATION
    | SCHEMA_VERSION | OWNER_ID | REQUEST_ID | PROTOCOL | SUBMITTED
    | DRAFT | PENDING | COMPLETED_ORDER_ID | CLIENT_REQUEST_ID | PAYLOAD
    | SLOT_START | SLOT_END | SLOT_INDEX | DATE | BUDGET
    | Other(name: string)

  /** A JavaScript value built from objects, lists and primitives. */
  datatype Value =
    | Undefined | Null | Boolean(yes: bool) | Number(value: real) | NotANumber | Infinite
    | Text(text: string) | List(items: seq<Value>) | Object(fields: map<Property, Value>)

  /** Reading a property of a value that is neither null nor undefined. */
  function Field(v: Value, key: Property): Value {
    if v.Object? && key in v.fields then v.fields[key] else Undefined
  }

  predicate Truthy(v: Value) {
    match v
    case Undefined => false
    case Null => false
    case Boolean(yes) => yes
    case Number(n) => n != 0.0
    case NotANumber => false
    case Infinite => true
    case Text(s) => s != ""
    case List(_) => true
    case Object(_) => true
  }

  /** The value parsed back from its JSON text. */
  function Kept(v: Value): Value {
    match v
    case NotANumber => Null
    case Infinite => Null
    case List(items) =>
      List(seq(|items|, i requires 0 <= i < |items| => if items[i].Undefined? then Null else Kept(items[i])))
    case Object(fields) => Object(map k | k in fields && !fields[k].Undefined? :: Kept(fields[k]))
    case _ => v
  }

  lemma KeptField(v: Value, key: Property)
    requires v.Object?
    ensures Field(Kept(v), key) == Kept(Field(v, key))
  {
  }

  lemma KeptPlain(v: Value, key: Property, x: Value)
    requires v.Object? && Field(v, key) == x && (x.Text? || x.Number?)
    ensures Field(Kept(v), key) == x
  {
    KeptField(v, key);
  }

  // ---------------------------------------------------------------- patterns

  predicate IsHex(c: char) { '0' <= c <= '9' || 'a' <= c <= 'f' || 'A' <= c <= 'F' }

  /** Groups of 8, 4, 4, 4 and 12 hexadecimal digits; the third starts with a version from 1 to
      lastVersion, the fourth with the variant. */
  predicate IsUuidUpTo(s: string, lastVersion: char) {
    && |s| == 36
    && (forall i :: 0 <= i < 36 ==> if i in {8, 13, 18, 23} then s[i] == '-' else IsHex(s[i]))
    && '1' <= s[14] <= lastVersion
    && s[19] in "89abAB"
  }

  predicate IsUuid(s: string) { IsUuidUpTo(s, '8') }

  function Lower(c: char): char { if 'A' <= c <= 'Z' then (c as int + 32) as char else c }

  predicate IsStoredPhoto(s: string) {
    && |s| == 40
    && IsUuidUpTo(s[..36], '5')
    && s[36] == '.'
    && [Lower(s[37]), Lower(s[38]), Lower(s[39])] in ["jpg", "png"]
  }

  /** A regular expression tests the text of a value: the text of a list of one element is the
      text of that element. */
  predicate IsUuidValue(v: Value) {
    match v
    case Text(s) => IsUuid(s)
    case List(items) => |items| == 1 && IsUuidValue(items[0])
    case _ => false
  }

  lemma {:induction false} UuidKept(v: Value)
    requires IsUuidValue(v)
    ensures Kept(v) == v
  {
    if v.List? {
      UuidKept(v.items[0]);
      assert Kept(v).items == v.items;
    }
  }

  // ---------------------------------------------------------------- submission

  /** categoryId is a value because its type is not checked, only its text. */
  datatype Submission = Submission(
    categoryId: Value, description: string, address: string, district: string, lat: real, lng: real,
    photoPaths: seq<string>,
    entrance: Option<string>, floor: Option<string>, apartment: Option<string>, addressComment: Option<string>)

  predicate IsText(v: Value, max: nat) { v.Text? && 0 < |v.text| <= max }

  predicate IsCoordinate(v: Value, max: real) { v.Number? && -max <= v.value <= max }

  predicate IsOptionalText(v: Value, max: nat) { v.Undefined? || (v.Text? && |v.text| <= max) }

  /** At most five different stored photos. */
  predicate ArePhotos(v: Value) {
    && v.List?
    && |v.items| <= 5
    && (forall i, j :: 0 <= i < j < |v.items| ==> v.items[i] != v.items[j])
    && (forall i :: 0 <= i < |v.items| ==> v.items[i].Text? && IsStoredPhoto(v.items[i].text))
  }

  function Optional(v: Value): Option<string> { if v.Text? then Some(v.text) else None }

  function Texts(items: seq<Value>): seq<string>
    requires forall i :: 0 <= i < |items| ==> items[i].Text?
  {
    seq(|items|, i requires 0 <= i < |items| => items[i].text)
  }

  /** The checks of submission on the property values. */
  function Checked(
    categoryId: Value, description: Value, address: Value, district: Value, lat: Value, lng: Value, photoPaths: Value,
    entrance: Value, floor: Value, apartment: Value, addressComment: Value): Option<Submission>
  {
    if && IsUuidValue(categoryId)
       && IsText(description, 2000) && IsText(address, 500) && IsText(district, 200)
       && IsCoordinate(lat, 90.0) && IsCoordinate(lng, 180.0)
       && ArePhotos(photoPaths)
       && IsOptionalText(entrance, 50) && IsOptionalText(floor, 50) && IsOptionalText(apartment, 50)
       && IsOptionalText(addressComment, 500)
    then
      Some(Submission(
             categoryId, description.text, address.text, district.text, lat.value, lng.value, Texts(photoPaths.items),
             Optional(entrance), Optional(floor), Optional(apartment), Optional(addressComment)))
    else None
  }

  /** submission. */
  function Submitted(v: Value): Option<Submission> {
    Checked(
      Field(v, CATEGORY_ID), Field(v, DESCRIPTION), Field(v, ADDRESS), Field(v, DISTRICT), Field(v, LAT), Field(v, LNG),
      Field(v, PHOTO_PATHS), Field(v, ENTRANCE), Field(v, FLOOR), Field(v, APARTMENT), Field(v, ADDRESS_COMMENT))
  }

  function OptionalValue(o: Option<string>): Value { if o.Some? then Text(o.value) else Undefined }

  function TextValues(texts: seq<string>): Value {
    List(seq(|texts|, i requires 0 <= i < |texts| => Text(texts[i])))
  }

  /** The submission as the object it is in memory. */
  function ToValue(s: Submission): Value {
    Object(map[
      CATEGORY_ID := s.categoryId, DESCRIPTION := Text(s.description), ADDRESS := Text(s.address),
      DISTRICT := Text(s.district), LAT := Number(s.lat), LNG := Number(s.lng),
      PHOTO_PATHS := TextValues(s.photoPaths),
      ENTRANCE := OptionalValue(s.entrance), FLOOR := OptionalValue(s.floor),
      APARTMENT := OptionalValue(s.apartment), ADDRESS_COMMENT := OptionalValue(s.addressComment)])
  }

  predicate IsSubmission(s: Submission) { Submitted(ToValue(s)) == Some(s) }

  function CheckedAgain(s: Submission): Option<Submission> {
    Checked(
      s.categoryId, Text(s.description), Text(s.address), Text(s.district), Number(s.lat), Number(s.lng),
      TextValues(s.photoPaths), OptionalValue(s.entrance), OptionalValue(s.floor), OptionalValue(s.apartment),
      OptionalValue(s.addressComment))
  }

  lemma TextsBack(texts: seq<string>)
    ensures var items := TextValues(texts).items;
            && (forall i :: 0 <= i < |items| ==> items[i].Text?)
            && Texts(items) == texts
            && Kept(TextValues(texts)) == TextValues(texts)
  {
    assert Kept(TextValues(texts)).items == TextValues(texts).items;
  }

  lemma PhotosBack(v: Value)
    requires ArePhotos(v)
    ensures TextValues(Texts(v.items)) == v
  {
    assert TextValues(Texts(v.items)).items == v.items;
  }

  lemma SubmittedIsChecked(s: Submission)
    ensures Submitted(ToValue(s)) == CheckedAgain(s)
  {
    hide Checked;
    CarriesSubmission(s);
    CarriesChecked(ToValue(s), s);
  }

  lemma CarriesSubmission(s: Submission)
    ensures Carries(ToValue(s), s)
  {
  }

  lemma CarriesChecked(v: Value, s: Submission)
    requires Carries(v, s)
    ensures Submitted(v) == CheckedAgain(s)
  {
    hide Checked;
  }

  /** The value's properties are those of the submission. */
  ghost predicate Carries(v: Value, s: Submission) {
    && v.Object?
    && Field(v, CATEGORY_ID) == s.categoryId
    && Field(v, DESCRIPTION) == Text(s.description)
    && Field(v, ADDRESS) == Text(s.address)
    && Field(v, DISTRICT) == Text(s.district)
    && Field(v, LAT) == Number(s.lat)
    && Field(v, LNG) == Number(s.lng)
    && Field(v, PHOTO_PATHS) == TextValues(s.photoPaths)
    && Field(v, ENTRANCE) == OptionalValue(s.entrance)
    && Field(v, FLOOR) == OptionalValue(s.floor)
    && Field(v, APARTMENT) == OptionalValue(s.apartment)
    && Field(v, ADDRESS_COMMENT) == OptionalValue(s.addressComment)
  }

  lemma KeptIsObject(v: Value)
    requires v.Object?
    ensures Kept(v).Object?
  {
  }

  lemma KeptSelf(v: Value, key: Property, x: Value)
    requires v.Object? && Field(v, key) == x && Kept(x) == x
    ensures Field(Kept(v), key) == x
  {
    KeptField(v, key);
  }

  lemma KeptOptional(v: Value, key: Property, o: Option<string>)
    requires v.Object? && Field(v, key) == OptionalValue(o)
    ensures Field(Kept(v), key) == OptionalValue(o)
  {
    KeptField(v, key);
  }

  lemma KeptCarries(v: Value, s: Submission)
    requires Carries(v, s) && Kept(s.categoryId) == s.categoryId
    ensures Carries(Kept(v), s)
  {
    TextsBack(s.photoPaths);
    KeptIsObject(v);
    hide Kept, TextValues;
    KeptSelf(v, CATEGORY_ID, s.categoryId);
    KeptPlain(v, DESCRIPTION, Text(s.description));
    KeptPlain(v, ADDRESS, Text(s.address));
    KeptPlain(v, DISTRICT, Text(s.district));
    KeptPlain(v, LAT, Number(s.lat));
    KeptPlain(v, LNG, Number(s.lng));
    KeptSelf(v, PHOTO_PATHS, TextValues(s.photoPaths));
    KeptOptional(v, ENTRANCE, s.entrance);
    KeptOptional(v, FLOOR, s.floor);
    KeptOptional(v, APARTMENT, s.apartment);
    KeptOptional(v, ADDRESS_COMMENT, s.addressComment);
  }

  lemma KeptIsChecked(s: Submission)
    requires Kept(s.categoryId) == s.categoryId
    ensures Submitted(Kept(ToValue(s))) == CheckedAgain(s)
  {
    hide Kept, ToValue, Submitted, CheckedAgain;
    CarriesSubmission(s);
    KeptCarries(ToValue(s), s);
    CarriesChecked(Kept(ToValue(s)), s);
  }

  lemma CheckedIsStable(
    categoryId: Value, description: Value, address: Value, district: Value, lat: Value, lng: Value, photoPaths: Value,
    entrance: Value, floor: Value, apartment: Value, addressComment: Value)
    ensures var r := Checked(categoryId, description, address, district, lat, lng, photoPaths,
                             entrance, floor, apartment, addressComment);
            r.Some? ==> CheckedAgain(r.value) == r && IsUuidValue(r.value.categoryId)
  {
    if ArePhotos(photoPaths) { PhotosBack(photoPaths); }
  }

  /** What the validator accepts it accepts again unchanged. */
  lemma SubmissionIsStable(v: Value)
    ensures Submitted(v).Some? ==> IsSubmission(Submitted(v).value)
  {
    CheckedIsStable(
      Field(v, CATEGORY_ID), Field(v, DESCRIPTION), Field(v, ADDRESS), Field(v, DISTRICT), Field(v, LAT), Field(v, LNG),
      Field(v, PHOTO_PATHS), Field(v, ENTRANCE), Field(v, FLOOR), Field(v, APARTMENT), Field(v, ADDRESS_COMMENT));
    if Submitted(v).Some? { SubmittedIsChecked(Submitted(v).value); }
  }

  /** And it accepts it unchanged once more after a trip through JSON. */
  lemma SubmissionSurvives(s: Submission)
    requires IsSubmission(s)
    ensures Submitted(Kept(ToValue(s))) == Some(s)
  {
    SubmittedIsChecked(s);
    UuidKept(s.categoryId);
    KeptIsChecked(s);
  }

  // ---------------------------------------------------------------- from a draft

  /** currentOrderSubmission either throws, refuses or returns a submission. */
  datatype Outcome = Throws | Refused | Accepted(submission: Submission)

  function OrUndefined(v: Value): Value { if Truthy(v) then v else Undefined }

  /** The object currentOrderSubmission hands to the validator. */
  function FromDraft(draft: Value): Value {
    Object(map[
      CATEGORY_ID := Field(draft, CATEGORY_ID), DESCRIPTION := Field(draft, DESCRIPTION),
      ADDRESS := Field(draft, ADDRESS_TEXT), DISTRICT := Field(draft, DISTRICT),
      LAT := Field(Field(draft, GEO), LAT), LNG := Field(Field(draft, GEO), LNG),
      PHOTO_PATHS := Field(draft, PHOTO_PATHS),
      ENTRANCE := OrUndefined(Field(draft, ENTRANCE)), FLOOR := OrUndefined(Field(draft, FLOOR)),
      APARTMENT := OrUndefined(Field(draft, APARTMENT)),
      ADDRESS_COMMENT := OrUndefined(Field(draft, ADDRESS_COMMENT))])
  }

  function CurrentOrder(draft: Value): Outcome {
    if Truthy(Field(draft, LOCATION_NEEDS_CONFIRMATION)) then Refused
    else if Field(draft, GEO).Undefined? || Field(draft, GEO).Null? then Throws
    else match Submitted(FromDraft(draft))
      case None => Refused
      case Some(s) => Accepted(s)
  }
}
