/** What saving, beginning and settling a planned order leave for the next read. */
module PlannedAnswers {
  import opened Options
  import opened OrderSubmission
  import opened PlannedDraft
  import opened PlannedDraftLaws

  /** Storage shows and takes everything. */
  const NO_FAULTS := Faults(false, false, false, false)

  /** A draft is saved exactly if somebody is signed in, it is valid, nothing seen is pending, unclear
      or done, and storage takes it; it then reads back as the draft it is, with nothing pending. */
  lemma {:induction false} SavesIff(c: Clock, stored: Option<Stored>, owner: string, v: Value, f: Faults)
    ensures var (after, ok) := AfterSave(c, stored, owner, v, f);
            && (ok <==>
                  && owner != "" && Sanitized(v).Some? && !Taken(Read(c, stored, owner, f))
                  && !f.missing && !f.setItem)
            && (!ok ==> after == stored)
            && (ok ==> Read(c, after, owner, NO_FAULTS) == Some(State(Sanitized(v), None, None, false)))
  {
    var d := Sanitized(v);
    hide StateOf, ValidPending, Sanitized;
    if AfterSave(c, stored, owner, v, f).1 {
      DraftStored(c, owner, d.value, Null);
      SanitizedBack(v);
      RecordFields(owner, DraftValue(d.value), Null, Null);
    }
  }

  /** A valid draft is what its value is read as. */
  lemma SanitizedBack(v: Value)
    requires Sanitized(v).Some?
    ensures Sanitized(Kept(DraftValue(Sanitized(v).value))) == Sanitized(v)
  {
    var d := Sanitized(v).value;
    DraftValueBack(v);
    DraftSurvives(DraftValue(d));
  }

  /** The rules a planned draft must meet, one by one. */
  predicate Meets(d: Draft) {
    && |d.categoryId| <= 100 && |d.description| <= 2000 && |d.address| <= 500 && |d.district| <= 200
    && |d.entrance| <= 50 && |d.floor| <= 50 && |d.apartment| <= 50 && |d.addressComment| <= 500
    && |d.budget| <= 10 && |d.date| <= 10 && d.slotIndex <= 3
    && |d.photoPaths| <= 5 && (forall i :: 0 <= i < |d.photoPaths| ==> |d.photoPaths[i]| <= 100)
  }

  lemma SanitizedMeets(v: Value)
    requires Sanitized(v).Some?
    ensures Meets(Sanitized(v).value)
  {
  }

  lemma PathsBack(paths: seq<string>)
    ensures ArePaths(TextValues(paths)) <==> |paths| <= 5 && forall i :: 0 <= i < |paths| ==> |paths[i]| <= 100
    ensures ArePaths(TextValues(paths)) ==> Texts(TextValues(paths).items) == paths
  {
    var items := TextValues(paths).items;
    assert |items| == |paths| && forall i :: 0 <= i < |paths| ==> items[i] == Text(paths[i]);
    if ArePaths(TextValues(paths)) {
      forall i | 0 <= i < |paths| ensures |paths[i]| <= 100 { assert Fits(items[i], 100); }
    }
  }

  lemma DraftTexts(d: Draft)
    ensures var w := DraftValue(d);
            && Field(w, CATEGORY_ID) == Text(d.categoryId) && Field(w, DESCRIPTION) == Text(d.description)
            && Field(w, ADDRESS) == Text(d.address) && Field(w, DISTRICT) == Text(d.district)
            && Field(w, ENTRANCE) == Text(d.entrance) && Field(w, FLOOR) == Text(d.floor)
  {
    hide TextValues;
  }

  lemma DraftRest(d: Draft)
    ensures var w := DraftValue(d);
            && Field(w, APARTMENT) == Text(d.apartment) && Field(w, ADDRESS_COMMENT) == Text(d.addressComment)
            && Field(w, BUDGET) == Text(d.budget) && Field(w, DATE) == Text(d.date)
            && Field(w, SLOT_INDEX) == Number(d.slotIndex as real)
            && Field(w, PHOTO_PATHS) == TextValues(d.photoPaths)
  {
    hide TextValues;
  }

  /** A draft is valid exactly if it meets the rules, and is then read as itself. */
  lemma DraftValidIff(d: Draft)
    ensures Sanitized(DraftValue(d)) == if Meets(d) then Some(d) else None
  {
    DraftTexts(d);
    DraftRest(d);
    PathsBack(d.photoPaths);
    hide DraftValue, Field, TextValues, ArePaths, Texts;
  }

  lemma DraftValueBack(v: Value)
    requires Sanitized(v).Some?
    ensures Sanitized(DraftValue(Sanitized(v).value)) == Sanitized(v)
  {
    SanitizedMeets(v);
    DraftValidIff(Sanitized(v).value);
  }

  lemma DraftStored(c: Clock, owner: string, d: Draft, completed: Value)
    requires completed == Null || completed.Text?
    ensures var r := Kept(Record(owner, DraftValue(d), Null, completed));
            Sanitized(Kept(DraftValue(d))) == Some(d) ==>
              StateOf(c, r) == State(Some(d), None, Optional(completed), false)
  {
    RecordFields(owner, DraftValue(d), Null, completed);
    NothingPending(c);
  }

  /** A planned request is begun exactly if somebody is signed in, the draft is complete and its slot
      lies within the next fortnight, nothing seen is pending, unclear or done, and storage takes it. */
  lemma BeginsIff(c: Clock, stored: Option<Stored>, owner: string, draft: Value, id: string, now: int, f: Faults)
    ensures var (after, p) := AfterBegin(c, stored, owner, draft, id, now, f);
            && (p.Some? <==> owner != "" && PlannedSubmission(c, draft, now).Some?
                             && !Taken(Read(c, stored, owner, f)) && !f.missing && !f.setItem)
            && (p.None? ==> after == stored)
  {
    hide PlannedSubmission, Read, Taken;
  }

  /** What a planned request needs: a valid draft whose order is valid, a slot that starts within the
      next fortnight, and no budget or a number of at most 2147483647. */
  lemma CompleteIff(c: Clock, draft: Value, now: int)
    ensures PlannedSubmission(c, draft, now).Some? <==>
            && Sanitized(draft).Some?
            && var d := Sanitized(draft).value;
               && CurrentOrder(OrderOf(d)).Accepted?
               && (match c.slot(d.date, d.slotIndex)
                   case None => false
                   case Some(slot) => now < slot.0 <= now + 14 * 24 * 3600 * 1000)
               && (d.budget == "" || (AllDigits(d.budget) && DigitsValue(d.budget) <= 2147483647))
  {
    hide Sanitized, CurrentOrder, OrderOf, DigitsValue;
  }

  /** A request just begun is settled exactly by its own id with an order id, when storage can be read
      and takes it. It then reads back as done, under that order, with the empty draft; anything else
      leaves it pending. */
  lemma {:induction false} SettlesIff(
    c: Clock, stored: Option<Stored>, owner: string, draft: Value, id: string, now: int, f: Faults,
    requestId: string, orderId: string, empty: Draft, g: Faults)
    requires Faithful(c) && IsUuid(id) && AfterBegin(c, stored, owner, draft, id, now, f).1.Some? && Meets(empty)
    ensures var begun := AfterBegin(c, stored, owner, draft, id, now, f).0;
            var (after, ok) := AfterSettle(c, begun, owner, requestId, orderId, empty, g);
            && (ok <==> orderId != "" && requestId == id && !g.missing && !g.getItem && !g.setItem)
            && (!ok ==> after == begun)
            && (ok ==> Read(c, after, owner, NO_FAULTS) == Some(State(Some(empty), None, Some(orderId), false)))
  {
    hide Read, StateOf, Sanitized, PlannedSubmission, Meets;
    var begun := AfterBegin(c, stored, owner, draft, id, now, f).0;
    if !g.missing && !g.getItem {
      BegunReadsBack(c, stored, owner, draft, id, now, f, g);
    } else {
      UnreadableRead(c, begun, owner, g);
    }
    BegunOwner(c, stored, owner, draft, id, now, f);
    var (after, ok) := AfterSettle(c, begun, owner, requestId, orderId, empty, g);
    if ok {
      assert after == Some(Parsed(Kept(Record(owner, DraftValue(empty), Null, Text(orderId)))));
      DraftValidIff(empty);
      DraftSurvives(DraftValue(empty));
      DraftStored(c, owner, empty, Text(orderId));
      RecordFields(owner, DraftValue(empty), Null, Text(orderId));
      StoredState(c, Kept(Record(owner, DraftValue(empty), Null, Text(orderId))), owner, NO_FAULTS);
    }
  }

  lemma UnreadableRead(c: Clock, stored: Option<Stored>, owner: string, g: Faults)
    requires g.missing || g.getItem
    ensures var s := Read(c, stored, owner, g); s.Some? ==> s.value.pending.None?
  {
  }

  lemma BegunOwner(c: Clock, stored: Option<Stored>, owner: string, draft: Value, id: string, now: int, f: Faults)
    requires AfterBegin(c, stored, owner, draft, id, now, f).1.Some?
    ensures owner != ""
  {
    hide PlannedSubmission, Read, Taken;
  }

  // ---------------------------------------------------------------- damaged records

  /** A stored record of the account that names anything pending is never passed over: it is shown as
      pending if it is valid and as uncertain if not, and refuses another draft or request until it is
      settled or cleared. */
  lemma {:induction false} PendingNeverForgotten(
    c: Clock, r: Value, owner: string, v: Value, draft: Value, id: string, now: int, f: Faults)
    requires r.Object? && Field(r, OWNER_ID) == Text(owner) && Truthy(Field(r, PENDING)) && !f.missing
    ensures var stored := Some(Parsed(r));
            && Taken(Read(c, stored, owner, f))
            && (!f.getItem ==>
                  var s := Read(c, stored, owner, f).value;
                  s.uncertain <==> !(Sanitized(Field(r, DRAFT)).Some? && ValidPending(c, Field(r, PENDING)) == Valid))
            && !AfterSave(c, stored, owner, v, f).1
            && AfterBegin(c, stored, owner, draft, id, now, f) == (stored, None)
  {
    hide ValidPending, Sanitized, PlannedSubmission;
  }
}
