/** What a draft holds after any edits: the last of each, and a confirmation that stays needed until
    the pin is placed or a location taken. */
module DraftInputs {
  import opened Options
  import opened DraftSession

  predicate Ends(e: Event) { e.Freeze? || e.Close? }

  lemma {:induction false} StaysOpen(s: Session, events: seq<Event>)
    requires Open(s) && forall e :: e in events ==> !Ends(e)
    ensures Open(Run(s, events))
  {
    if events != [] {
      var k := |events| - 1;
      assert events[k] in events && forall e :: e in events[..k] ==> e in events;
      StaysOpen(s, events[..k]);
    }
  }

  // ---------------------------------------------------------------- inputs

  /** The last text the edits write to the field, if any. */
  function LastWritten(edits: seq<Edit>, field: TextField): Option<string> {
    if edits == [] then None
    else
      var e := edits[|edits| - 1];
      if e.Write? && e.field == field then Some(e.text) else LastWritten(edits[..|edits| - 1], field)
  }

  function LastPhotos(edits: seq<Edit>): Option<seq<string>> {
    if edits == [] then None
    else
      var e := edits[|edits| - 1];
      if e.Photos? then Some(e.paths) else LastPhotos(edits[..|edits| - 1])
  }

  /** All edits of the run, in order. */
  function Edits(events: seq<Event>): seq<Edit> {
    if events == [] then []
    else
      var e := events[|events| - 1];
      Edits(events[..|events| - 1]) + if e.Set? then [e.edit] else if e.Patch? then e.edits else []
  }

  /** The draft with the text of the field, and the photos, that the edits leave. */
  ghost predicate Holds(d: Draft, d0: Draft, edits: seq<Edit>, field: TextField) {
    && (match LastWritten(edits, field)
        case Some(text) => field in d.text && d.text[field] == text
        case None => (field in d.text <==> field in d0.text) && (field in d.text ==> d.text[field] == d0.text[field]))
    && (match LastPhotos(edits)
        case Some(paths) => d.photoPaths == paths
        case None => d.photoPaths == d0.photoPaths)
  }

  lemma OneMore(d: Draft, d0: Draft, edits: seq<Edit>, e: Edit, field: TextField)
    requires Holds(d, d0, edits, field)
    ensures Holds(Apply(d, e), d0, edits + [e], field)
  {
    assert (edits + [e])[..|edits|] == edits;
  }

  lemma {:induction false} AllMore(d: Draft, d0: Draft, edits: seq<Edit>, more: seq<Edit>, field: TextField)
    requires Holds(d, d0, edits, field)
    ensures Holds(ApplyAll(d, more), d0, edits + more, field)
  {
    if more == [] {
      assert edits + more == edits;
    } else {
      var k := |more| - 1;
      AllMore(d, d0, edits, more[..k], field);
      OneMore(ApplyAll(d, more[..k]), d0, edits + more[..k], more[k], field);
      assert edits + more[..k] + [more[k]] == edits + more;
    }
  }

  /** In an open session, through any edits, location requests and replies, each text and the photos
      are what was last put in. */
  lemma {:induction false} InputsAreLastEdits(s: Session, events: seq<Event>, field: TextField)
    requires Open(s) && forall e :: e in events ==> !Ends(e)
    ensures Holds(Run(s, events).snapshot, s.snapshot, Edits(events), field)
  {
    hide Holds, After, Open, Ends;
    if events == [] {
      NothingHeld(s.snapshot, field);
    } else {
      var k := |events| - 1;
      assert events[k] in events && forall e :: e in events[..k] ==> e in events;
      InputsAreLastEdits(s, events[..k], field);
      StaysOpen(s, events[..k]);
      InputStep(Run(s, events[..k]), s.snapshot, Edits(events[..k]), events[k], field);
    }
  }

  lemma NothingHeld(d: Draft, field: TextField)
    ensures Holds(d, d, [], field)
  {
  }

  lemma InputStep(t: Session, d0: Draft, before: seq<Edit>, e: Event, field: TextField)
    requires Open(t) && !Ends(e) && Holds(t.snapshot, d0, before, field)
    ensures var more := if e.Set? then [e.edit] else if e.Patch? then e.edits else [];
            Holds(After(t, e).snapshot, d0, before + more, field)
  {
    hide LastWritten, LastPhotos;
    assert before + [] == before;
    match e
    case Set(edit, _) => OneMore(t.snapshot, d0, before, edit, field);
    case Patch(edits, _) => AllMore(t.snapshot, d0, before, edits, field);
    case _ =>
  }

  // ---------------------------------------------------------------- the confirmation

  /** The user places the pin, or the reply to the latest location request comes. */
  predicate Confirms(s: Session, e: Event) {
    (e.Set? && e.edit.Move?) || (e.Reply? && e.revision == s.locationRevision)
  }

  predicate SetsConfirmation(e: Event) {
    || (e.Set? && e.edit.Confirm?)
    || (e.Patch? && exists i :: 0 <= i < |e.edits| && e.edits[i].Confirm?)
  }

  ghost predicate NeverConfirmed(s: Session, events: seq<Event>) {
    events == [] || (var k := |events| - 1; NeverConfirmed(s, events[..k]) && !Confirms(Run(s, events[..k]), events[k]))
  }

  lemma {:induction false} PatchKeepsConfirmation(d: Draft, edits: seq<Edit>)
    requires forall i :: 0 <= i < |edits| ==> !edits[i].Confirm?
    ensures ApplyAll(d, edits).needsConfirmation == d.needsConfirmation
  {
    if edits != [] { PatchKeepsConfirmation(d, edits[..|edits| - 1]); }
  }

  lemma ConfirmationStep(s: Session, e: Event)
    requires Open(s) && !Ends(e) && !SetsConfirmation(e)
    ensures Unconfirmed(After(s, e).snapshot) <==> Unconfirmed(s.snapshot) && !Confirms(s, e)
  {
    if e.Patch? { PatchKeepsConfirmation(s.snapshot, e.edits); }
  }

  /** A location that must be confirmed stays so, whatever else is edited, until the user places the
      pin or the latest location request is answered, and no longer. */
  lemma {:induction false} NeededUntilConfirmed(s: Session, events: seq<Event>)
    requires Open(s) && Unconfirmed(s.snapshot)
    requires forall e :: e in events ==> !Ends(e) && !SetsConfirmation(e)
    ensures Unconfirmed(Run(s, events).snapshot) <==> NeverConfirmed(s, events)
  {
    if events != [] {
      var k := |events| - 1;
      assert events[k] in events && forall e :: e in events[..k] ==> e in events;
      NeededUntilConfirmed(s, events[..k]);
      StaysOpen(s, events[..k]);
      ConfirmationStep(Run(s, events[..k]), events[k]);
    }
  }

  // ---------------------------------------------------------------- storage

  /** What storage last took is the draft shown, whenever its last write succeeded. */
  lemma {:induction false} SavedIsShown(s: Session, events: seq<Event>, e: Event)
    requires Open(s) && (forall x :: x in events ==> !Ends(x)) && !Ends(e)
    requires (e.Set? && e.written) || (e.Patch? && e.written)
    ensures var t := Run(s, events + [e]); t.saved == Some(t.snapshot)
  {
    StaysOpen(s, events);
    assert (events + [e])[..|events|] == events;
  }

  // ---------------------------------------------------------------- the location

  /** The user chooses a location: the pin, the address, or the answer to the latest request. */
  predicate Chooses(s: Session, e: Event) {
    (e.Set? && (e.edit.Move? || EditsAddress(e.edit))) || (e.Reply? && e.revision == s.locationRevision)
  }

  /** The event writes neither the choice nor the confirmation directly. */
  predicate Indirect(e: Event) {
    && !SetsConfirmation(e)
    && (e.Set? ==> !e.edit.Choose?)
    && (e.Patch? ==> forall i :: 0 <= i < |e.edits| ==> !e.edits[i].Choose?)
  }

  ghost predicate Chosen(s: Session, events: seq<Event>) {
    events != [] && (var k := |events| - 1; Chosen(s, events[..k]) || Chooses(Run(s, events[..k]), events[k]))
  }

  lemma {:induction false} PatchKeepsChoice(d: Draft, edits: seq<Edit>)
    requires forall i :: 0 <= i < |edits| ==> !edits[i].Choose?
    ensures ApplyAll(d, edits).locationChosen == d.locationChosen
  {
    if edits != [] { PatchKeepsChoice(d, edits[..|edits| - 1]); }
  }

  lemma ChoiceStep(s: Session, e: Event)
    requires Open(s) && !Ends(e) && Indirect(e) && !Unconfirmed(s.snapshot)
    ensures var t := After(s, e);
            && !Unconfirmed(t.snapshot)
            && (t.snapshot.locationChosen <==> s.snapshot.locationChosen || Chooses(s, e))
  {
    if e.Patch? {
      PatchKeepsChoice(s.snapshot, e.edits);
      PatchKeepsConfirmation(s.snapshot, e.edits);
    }
  }

  /** Where no confirmation is needed, a location counts as chosen exactly once the user has placed
      the pin, typed an address, or taken the latest location. */
  lemma {:induction false} ChosenIff(s: Session, events: seq<Event>)
    requires Open(s) && !Unconfirmed(s.snapshot) && forall e :: e in events ==> !Ends(e) && Indirect(e)
    ensures var t := Run(s, events);
            !Unconfirmed(t.snapshot) && (t.snapshot.locationChosen <==> s.snapshot.locationChosen || Chosen(s, events))
  {
    if events != [] {
      var k := |events| - 1;
      assert events[k] in events && forall e :: e in events[..k] ==> e in events;
      ChosenIff(s, events[..k]);
      StaysOpen(s, events[..k]);
      ChoiceStep(Run(s, events[..k]), events[k]);
    }
  }

  /** While a confirmation is needed, an edit other than the pin leaves the location not chosen. */
  lemma UnconfirmedIsNotChosen(s: Session, e: Edit, written: bool)
    requires Open(s) && Unconfirmed(s.snapshot) && !e.Move?
    ensures !After(s, Set(e, written)).snapshot.locationChosen
  {
  }

  /** The position found at the start moves the pin of a new draft exactly if the user has not chosen
      a location by then, and of a restored draft never. */
  lemma {:induction false} InitialIff(s: Session, events: seq<Event>, geo: Geo, written: bool)
    requires Open(s) && !Unconfirmed(s.snapshot) && !s.snapshot.locationChosen
    requires forall e :: e in events ==> !Ends(e) && Indirect(e)
    ensures var t := Run(s, events);
            var u := After(t, Initial(geo, written));
            if s.restored || Chosen(s, events) then u == t
            else u.snapshot == t.snapshot.(geo := geo) && u.locationRevision == t.locationRevision
  {
    ChosenIff(s, events);
    StaysOpen(s, events);
    RestoredStays(s, events);
  }

  lemma {:induction false} RestoredStays(s: Session, events: seq<Event>)
    ensures Run(s, events).restored == s.restored
  {
    if events != [] { RestoredStays(s, events[..|events| - 1]); }
  }
}
