/** The editing session of a new order draft (packages/ui/src/new-order-draft.ts:50-90) and its
    rule for geolocation replies that arrive late. */
module DraftSession {
  import opened Options

  datatype Geo = Geo(lat: real, lng: real)

  datatype TextField =
    CategoryId | Description | AddressText | District | Entrance | Floor | Apartment | AddressComment

  datatype Draft = Draft(
    step: int, text: map<TextField, string>, photoPaths: seq<string>, geo: Geo, locationChosen: bool,
    needsConfirmation: Option<bool>)

  /** One property with its new value. */
  datatype Edit =
    | Step(step: int) | Write(field: TextField, text: string) | Photos(paths: seq<string>) | Move(geo: Geo)
    | Choose(chosen: bool) | Confirm(needed: bool)

  /** restored: the draft came from storage. saved: the last draft storage took. */
  datatype Session = Session(
    restored: bool, snapshot: Draft, active: bool, editable: bool, locationRevision: nat, saved: Option<Draft>)

  function Apply(d: Draft, e: Edit): Draft {
    match e
    case Step(n) => d.(step := n)
    case Write(field, text) => d.(text := d.text[field := text])
    case Photos(paths) => d.(photoPaths := paths)
    case Move(geo) => d.(geo := geo)
    case Choose(chosen) => d.(locationChosen := chosen)
    case Confirm(needed) => d.(needsConfirmation := Some(needed))
  }

  function ApplyAll(d: Draft, edits: seq<Edit>): Draft {
    if edits == [] then d else Apply(ApplyAll(d, edits[..|edits| - 1]), edits[|edits| - 1])
  }

  predicate EditsAddress(e: Edit) { e.Write? && e.field == AddressText }

  predicate EditsLocation(e: Edit) { e.Move? || EditsAddress(e) }

  predicate Unconfirmed(d: Draft) { d.needsConfirmation == Some(true) }

  /** A confirmation that was needed is given. */
  function Confirmed(d: Draft): Option<bool> {
    if Unconfirmed(d) then Some(false) else d.needsConfirmation
  }

  predicate Open(s: Session) { s.active && s.editable }

  /** publish; written: storage took the draft. */
  function AfterPublish(s: Session, d: Draft, written: bool): Session {
    if !Open(s) then s else s.(snapshot := d, saved := if written then Some(d) else s.saved)
  }

  function AfterSet(s: Session, e: Edit, written: bool): Session {
    if !Open(s) then s
    else
      var d := Apply(s.snapshot, e);
      AfterPublish(
        s.(locationRevision := s.locationRevision + if EditsLocation(e) then 1 else 0),
        d.(locationChosen :=
             e.Move? || (!Unconfirmed(s.snapshot) && (s.snapshot.locationChosen || EditsAddress(e))),
           needsConfirmation := if e.Move? then Confirmed(s.snapshot) else d.needsConfirmation),
        written)
  }

  predicate PatchesLocation(edits: seq<Edit>) {
    exists i :: 0 <= i < |edits| && EditsLocation(edits[i])
  }

  function AfterPatch(s: Session, edits: seq<Edit>, written: bool): Session {
    if !Open(s) then s
    else
      AfterPublish(
        s.(locationRevision := s.locationRevision + if PatchesLocation(edits) then 1 else 0),
        ApplyAll(s.snapshot, edits), written)
  }

  /** requestLocation; the reply carries the new revision. */
  function AfterRequest(s: Session): Session { s.(locationRevision := s.locationRevision + 1) }

  function AfterReply(s: Session, revision: nat, geo: Geo, written: bool): Session {
    if !Open(s) || revision != s.locationRevision then s
    else
      AfterPublish(
        s, s.snapshot.(geo := geo, locationChosen := true, needsConfirmation := Confirmed(s.snapshot)), written)
  }

  function AfterInitial(s: Session, geo: Geo, written: bool): Session {
    if !s.active || s.restored || s.snapshot.locationChosen || Unconfirmed(s.snapshot) then s
    else AfterPublish(s, s.snapshot.(geo := geo), written)
  }

  class EditingSession {
    const restored: bool
    var snapshot: Draft
    var active: bool
    var editable: bool
    var locationRevision: nat
    var saved: Option<Draft>

    ghost function Abs(): Session
      reads this
    {
      Session(restored, snapshot, active, editable, locationRevision, saved)
    }

    /** createDraftSession; stored is what readNewOrderDraft returns. */
    constructor (stored: Option<Draft>, empty: Draft)
      ensures Abs() == Session(stored.Some?, if stored.Some? then stored.value else empty, true, true, 0, stored)
    {
      restored, saved := stored.Some?, stored;
      snapshot := if stored.Some? then stored.value else empty;
      active, editable, locationRevision := true, true, 0;
    }

    method Publish(d: Draft, written: bool)
      modifies this
      ensures Abs() == AfterPublish(old(Abs()), d, written)
    {
      if !active || !editable { return; }
      snapshot := d;
      if written { saved := Some(d); }
    }

    method Set(e: Edit, written: bool)
      modifies this
      ensures Abs() == AfterSet(old(Abs()), e, written)
    {
      if !active || !editable { return; }
      if EditsLocation(e) { locationRevision := locationRevision + 1; }
      var d := Apply(snapshot, e);
      d := d.(locationChosen := e.Move? || (!Unconfirmed(snapshot) && (snapshot.locationChosen || EditsAddress(e))));
      if e.Move? && Unconfirmed(snapshot) { d := d.(needsConfirmation := Some(false)); }
      Publish(d, written);
    }

    method Patch(edits: seq<Edit>, written: bool)
      modifies this
      ensures Abs() == AfterPatch(old(Abs()), edits, written)
    {
      if !active || !editable { return; }
      if PatchesLocation(edits) { locationRevision := locationRevision + 1; }
      Publish(ApplyAll(snapshot, edits), written);
    }

    method RequestLocation() returns (revision: nat)
      modifies this
      ensures Abs() == AfterRequest(old(Abs())) && revision == locationRevision
    {
      locationRevision := locationRevision + 1;
      return locationRevision;
    }

    method Reply(revision: nat, geo: Geo, written: bool)
      modifies this
      ensures Abs() == AfterReply(old(Abs()), revision, geo, written)
    {
      if active && editable && revision == locationRevision {
        Publish(snapshot.(geo := geo, locationChosen := true, needsConfirmation := Confirmed(snapshot)), written);
      }
    }

    method ApplyInitialLocation(geo: Geo, written: bool)
      modifies this
      ensures Abs() == AfterInitial(old(Abs()), geo, written)
    {
      if !active || restored || snapshot.locationChosen || Unconfirmed(snapshot) { return; }
      Publish(snapshot.(geo := geo), written);
    }
  }

  // ---------------------------------------------------------------- runs

  datatype Event =
    | Set(edit: Edit, written: bool)
    | Patch(edits: seq<Edit>, written: bool)
    | Request
    | Reply(revision: nat, geo: Geo, written: bool)
    | Initial(geo: Geo, written: bool)
    | Freeze
    | Close

  /** Close is dispose or complete. */
  function After(s: Session, e: Event): Session {
    match e
    case Set(edit, written) => AfterSet(s, edit, written)
    case Patch(edits, written) => AfterPatch(s, edits, written)
    case Request => AfterRequest(s)
    case Reply(revision, geo, written) => AfterReply(s, revision, geo, written)
    case Initial(geo, written) => AfterInitial(s, geo, written)
    case Freeze => s.(editable := false)
    case Close => s.(active := false)
  }

  function Run(s: Session, events: seq<Event>): Session {
    if events == [] then s else After(Run(s, events[..|events| - 1]), events[|events| - 1])
  }

  /** The event makes earlier location requests stale: an edit of the pin or the address, or a
      newer request. */
  predicate Supersedes(e: Event) {
    e.Request? || (e.Set? && EditsLocation(e.edit)) || (e.Patch? && PatchesLocation(e.edits))
  }

  lemma {:induction false} RevisionTells(s: Session, events: seq<Event>)
    ensures var t := Run(s, events);
            && t.locationRevision >= s.locationRevision
            && (Open(t) ==> Open(s))
            && (Open(t) ==>
                  (t.locationRevision == s.locationRevision
                   <==> forall i :: 0 <= i < |events| ==> !Supersedes(events[i])))
  {
    if events != [] {
      var n := |events| - 1;
      RevisionTells(s, events[..n]);
      assert forall i :: 0 <= i < n ==> events[..n][i] == events[i];
    }
  }

  /** Whatever happens between a location request and its reply, the reply is applied if and
      only if the session is still open and nobody edited the pin or the address or asked again;
      otherwise it changes nothing. When applied it moves the pin and touches no other input. */
  lemma {:induction false} LateReply(s: Session, events: seq<Event>, geo: Geo, written: bool)
    ensures var asked := AfterRequest(s);
            var t := Run(asked, events);
            var u := AfterReply(t, asked.locationRevision, geo, written);
            if Open(t) && forall i :: 0 <= i < |events| ==> !Supersedes(events[i]) then
              && u.snapshot.geo == geo
              && u.snapshot.locationChosen && !Unconfirmed(u.snapshot)
              && u.snapshot.(geo := t.snapshot.geo, locationChosen := t.snapshot.locationChosen,
                             needsConfirmation := t.snapshot.needsConfirmation) == t.snapshot
              && u.locationRevision == t.locationRevision
            else u == t
  {
    RevisionTells(AfterRequest(s), events);
  }
}
