/** When an order or a planned request may be begun, what it leaves in storage, and how it is ended. */
module PendingAnswers {
  import opened Options
  import opened OrderSubmission
  import opened NewOrderPending

  /** A pending request the account can see: its stored marker if storage shows it, or else the one in
      memory. */
  function Seen(b: Browser, owner: string, f: Faults): Option<Pending> {
    if !f.missing && !f.getMarker && StoredPending(b, owner).Some? then StoredPending(b, owner)
    else if b.memory.Some? && b.memory.value.ownerId == owner then b.memory
    else None
  }

  lemma NobodyStored(b: Browser)
    ensures StoredPending(b, "").None?
  {
  }

  /** A new order may be begun exactly if somebody is signed in, nothing of theirs can be seen to be
      pending, and what they submit is valid. The request has their name, the fresh id and the
      submission; it is in storage if storage takes it and in memory otherwise. */
  lemma BeginsIff(b: Browser, owner: string, value: Option<Value>, id: string, f: Faults)
    ensures var (b1, p) := AfterBegin(b, owner, value, id, f);
            && (p.Some? <==>
                  owner != "" && Seen(b, owner, f).None? && (value.Some? ==> Submitted(value.value).Some?))
            && (p.Some? ==>
                  && p.value.ownerId == owner && p.value.requestId == id
                  && p.value.submitted == (if value.Some? then Submitted(value.value) else None)
                  && p.value.keyed == value.Some?
                  && (if f.missing || f.setMarker
                      then b1.memory == p && !p.value.persistent
                      else b1.marker == Some(Written(p.value)) && p.value.persistent))
            && b1.draft == b.draft
  {
    NobodyStored(b);
  }

  /** What a read shows: what can be seen, and nothing to nobody. A marker that cannot be read, or is
      not the account's, is removed where storage allows; a record in memory of another account is
      dropped unless the account's own marker is shown. */
  lemma ReadShows(b: Browser, owner: string, f: Faults)
    ensures var (b1, p) := AfterRead(b, owner, f);
            var shown := !f.missing && !f.getMarker && StoredPending(b, owner).Some?;
            && p == (if owner == "" then None else Seen(b, owner, f))
            && b1.draft == b.draft
            && b1.marker == (if shown || f.missing || f.removeMarker then b.marker
                             else if f.getMarker || b.marker.Some? then None else b.marker)
            && b1.memory == (if shown || (b.memory.Some? && b.memory.value.ownerId == owner && owner != "")
                             then b.memory else None)
  {
    NobodyStored(b);
  }

  /** A request can be sent again exactly if it was begun with a submission under a UUID, and then with
      that submission. */
  lemma SendsWhatWasBegun(b: Browser, owner: string, value: Option<Value>, id: string, f: Faults)
    requires AfterBegin(b, owner, value, id, f).1.Some?
    ensures var p := AfterBegin(b, owner, value, id, f).1.value;
            && (CanRecover(p) <==> value.Some? && IsUuid(id))
            && (CanRecover(p) ==> PostOf(p) == Post(owner, id, Submitted(value.value).value))
  {
    if value.Some? { SubmissionIsStable(value.value); }
  }

  // ---------------------------------------------------------------- which submissions are valid

  /** The rules a submission must meet, one by one. */
  predicate Meets(s: Submission) {
    && IsUuidValue(s.categoryId)
    && 1 <= |s.description| <= 2000 && 1 <= |s.address| <= 500 && 1 <= |s.district| <= 200
    && -90.0 <= s.lat <= 90.0 && -180.0 <= s.lng <= 180.0
    && |s.photoPaths| <= 5
    && (forall i, j :: 0 <= i < j < |s.photoPaths| ==> s.photoPaths[i] != s.photoPaths[j])
    && (forall i :: 0 <= i < |s.photoPaths| ==> IsStoredPhoto(s.photoPaths[i]))
    && (s.entrance.Some? ==> |s.entrance.value| <= 50) && (s.floor.Some? ==> |s.floor.value| <= 50)
    && (s.apartment.Some? ==> |s.apartment.value| <= 50)
    && (s.addressComment.Some? ==> |s.addressComment.value| <= 500)
  }

  lemma PhotosMeet(paths: seq<string>)
    ensures ArePhotos(TextValues(paths)) <==>
            && |paths| <= 5
            && (forall i, j :: 0 <= i < j < |paths| ==> paths[i] != paths[j])
            && (forall i :: 0 <= i < |paths| ==> IsStoredPhoto(paths[i]))
  {
    var v := TextValues(paths);
    assert |v.items| == |paths| && forall i :: 0 <= i < |paths| ==> v.items[i] == Text(paths[i]);
    if ArePhotos(v) {
      forall i, j | 0 <= i < j < |paths| ensures paths[i] != paths[j] { assert v.items[i] != v.items[j]; }
      forall i | 0 <= i < |paths| ensures IsStoredPhoto(paths[i]) { assert IsStoredPhoto(v.items[i].text); }
    }
  }

  /** The validator gives a submission back exactly if it meets the rules. */
  lemma ValidIff(s: Submission)
    ensures Submitted(ToValue(s)) == Some(s) <==> Meets(s)
    ensures Submitted(ToValue(s)).Some? <==> Meets(s)
  {
    SubmittedIsChecked(s);
    PhotosMeet(s.photoPaths);
    TextsBack(s.photoPaths);
    hide Submitted, ToValue, ArePhotos, TextValues, Texts, IsUuidValue, IsStoredPhoto;
  }

  // ---------------------------------------------------------------- damaged markers, logging out

  /** A stored marker concerns an account exactly if it has a known version and the account's name. It
      then stays pending, however damaged the rest is; a request without a usable id, or that cannot be
      read as a valid submission under a UUID, cannot be sent again. */
  lemma MarkerConcerns(b: Browser, v: Value, owner: string, f: Faults)
    requires b.marker == Some(Parsed(v)) && owner != "" && !f.missing && !f.getMarker
    ensures var p := AfterRead(b, owner, f).1;
            var known := (Field(v, SCHEMA_VERSION) == Number(1.0) || Field(v, SCHEMA_VERSION) == Number(2.0))
                         && Field(v, OWNER_ID) == Text(owner);
            var id := Field(v, REQUEST_ID);
            && (known ==> p.Some? && p.value.ownerId == owner && AfterRead(b, owner, f).0 == b)
            && (known && id.Text? && 0 < |id.text| <= 100 ==> p.value.requestId == id.text)
            && (known && !(id.Text? && 0 < |id.text| <= 100) ==> !CanRecover(p.value))
            && (known ==> (CanRecover(p.value) <==>
                             && Field(v, SCHEMA_VERSION) == Number(2.0) && Field(v, PROTOCOL) == Text("SERVER_KEYED")
                             && id.Text? && |id.text| <= 100 && IsUuid(id.text)
                             && Submitted(Field(v, SUBMITTED)).Some?))
            && (!known ==> p == if b.memory.Some? && b.memory.value.ownerId == owner then b.memory else None)
  {
    SubmissionIsStable(Field(v, SUBMITTED));
  }

  /** Logging out forgets the request in memory whatever storage does, and the stored marker and draft
      where storage allows; with working storage nobody sees anything pending. */
  lemma ClearForgets(b: Browser, f: Faults, owner: string, g: Faults)
    ensures var t := AfterClear(b, f);
            && t.memory == None
            && t.marker == (if f.missing || f.removeMarker then b.marker else None)
            && t.draft == (if f.missing || f.removeDraft then b.draft else None)
            && (!f.missing && !f.removeMarker ==> AfterRead(t, owner, g).1 == None)
  {
  }
}
