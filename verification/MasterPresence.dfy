/** Urgent offers and availability of a master (apps/master/lib/masterPresence.tsx:82-162). Refs
    are fields; every callback and await is a step boundary. The component lives for one account;
    timers, sound, notes and navigation carry no state here. */
module MasterPresence {
  import opened Options

  /** serial stands for object identity. */
  datatype Offer = Offer(serial: nat, orderId: string, offerId: Option<string>, direct: bool, deadline: int)

  /** An accept or decline in flight, with the offer it captured. */
  datatype Action = Accepting(offer: Offer) | Reconciling(offer: Offer) | Declining(offer: Offer)

  /** Messages to the server, and the boundaries they are judged by. */
  datatype Observation =
    | Asked(revision: nat)
    | Online(revision: nat)
    | Geo(revision: nat)
    | Offline(revision: nat)
    | Gone(revision: nat)
    | Sent(offer: Offer)

  datatype Presence = Presence(
    live: bool, onlineIntent: bool, locationPending: bool, locationRevision: nat,
    offerRevision: nat, offerLock: bool, currentOffer: Option<Offer>, action: Option<Action>,
    trace: seq<Observation>)

  /** After the layout effect of the first render. */
  const START := Presence(true, false, false, 0, 0, false, None, None, [])

  function AfterUnmount(s: Presence): Presence {
    s.(live := false, locationRevision := s.locationRevision + 1, offerRevision := s.offerRevision + 1,
       trace := s.trace + [Gone(s.locationRevision + 1)])
  }

  // ---------------------------------------------------------------- offers

  /** restore, up to its GET; callers check that the component is live. */
  function AfterRestore(s: Presence): Presence {
    if s.live then s.(offerRevision := s.offerRevision + 1) else s
  }

  /** The pending offer as the GET shows it, unless its deadline has passed. */
  function StillOpen(pending: Option<Offer>, now: int): Option<Offer> {
    if pending.Some? && pending.value.deadline > now then pending else None
  }

  function Merged(next: Option<Offer>, current: Option<Offer>): Option<Offer> {
    if next.Some? then next else if current.Some? && current.value.direct then None else current
  }

  /** The GET of restore with this revision answers; None: it failed. */
  function AfterRestored(s: Presence, revision: nat, answer: Option<Option<Offer>>, now: int): Presence {
    if answer.None? || !s.live || s.offerRevision != revision then s
    else s.(currentOffer := Merged(StillOpen(answer.value, now), s.currentOffer))
  }

  function AfterOffer(s: Presence, incoming: Offer): Presence {
    if !s.live then s else s.(offerRevision := s.offerRevision + 1, currentOffer := Some(incoming))
  }

  predicate Closes(current: Offer, orderId: string, offerId: Option<string>) {
    && current.orderId == orderId
    && (Absent(offerId) || Absent(current.offerId) || current.offerId == offerId)
  }

  /** Missing, or the empty text. */
  predicate Absent(offerId: Option<string>) { offerId.None? || offerId.value == "" }

  function AfterClosed(s: Presence, orderId: string, offerId: Option<string>): Presence {
    if !s.live then s
    else
      s.(offerRevision := s.offerRevision + 1,
         currentOffer := if s.currentOffer.Some? && Closes(s.currentOffer.value, orderId, offerId) then None
                         else s.currentOffer)
  }

  function Cleared(s: Presence, captured: Offer): Presence {
    if && s.currentOffer.Some? && s.currentOffer.value.orderId == captured.orderId
       && s.currentOffer.value.offerId == captured.offerId
    then s.(currentOffer := None) else s
  }

  /** finally, while live: the lock is released. */
  function Released(s: Presence): Presence {
    s.(offerRevision := s.offerRevision + 1, offerLock := false, action := None)
  }

  predicate MayAccept(s: Presence, offer: Offer, now: int, onLine: bool) {
    s.live && s.currentOffer == Some(offer) && !s.offerLock && offer.deadline > now && onLine
  }

  function AfterAccept(s: Presence, offer: Offer, now: int, onLine: bool): Presence {
    if !MayAccept(s, offer, now, onLine) then s
    else
      s.(offerRevision := s.offerRevision + 1, offerLock := true, action := Some(Accepting(offer)),
         trace := s.trace + [Sent(offer)])
  }

  predicate MayDecline(s: Presence, offer: Offer, onLine: bool) {
    s.live && s.currentOffer == Some(offer) && !s.offerLock && onLine
  }

  /** Only a direct payment is declined on the server. */
  function AfterDecline(s: Presence, offer: Offer, onLine: bool): Presence {
    if !MayDecline(s, offer, onLine) then s
    else
      var s1 := s.(offerRevision := s.offerRevision + 1, offerLock := true, action := Some(Declining(offer)));
      if offer.direct then s1.(trace := s.trace + [Sent(offer)]) else Released(Cleared(s1, offer))
  }

  /** The request of the action in flight answers. A failed accept is reconciled by a read. */
  function AfterActionAnswer(s: Presence, ok: bool): Presence {
    match s.action
    case None => s
    case Some(Accepting(offer)) =>
      if !s.live then s.(action := None)
      else if ok then Released(Cleared(s, offer))
      else Cleared(s, offer).(action := Some(Reconciling(offer)))
    case Some(Reconciling(_)) => if s.live then Released(s) else s.(action := None)
    case Some(Declining(offer)) =>
      if !s.live then s.(action := None) else Released(if ok then Cleared(s, offer) else s)
  }

  // ---------------------------------------------------------------- availability

  /** goOnline; supported: the browser has geolocation. */
  function AfterGoOnline(s: Presence, supported: bool): Presence {
    if !s.live || s.onlineIntent || s.locationPending || !supported then s
    else
      s.(locationRevision := s.locationRevision + 1, locationPending := true,
         trace := s.trace + [Asked(s.locationRevision + 1)])
  }

  predicate Valid(s: Presence, revision: nat) { s.live && s.locationRevision == revision }

  /** The position asked for by goOnline. */
  function AfterPosition(s: Presence, revision: nat, ok: bool): Presence {
    if !Valid(s, revision) then s
    else if ok then
      s.(locationPending := false, onlineIntent := true, trace := s.trace + [Online(revision)])
    else s.(locationPending := false)
  }

  /** A position asked for by the timer of that goOnline. */
  function AfterTimedPosition(s: Presence, revision: nat): Presence {
    if !Valid(s, revision) || !s.onlineIntent then s else s.(trace := s.trace + [Geo(revision)])
  }

  function AfterGoOffline(s: Presence): Presence {
    if !s.live then s
    else
      s.(locationRevision := s.locationRevision + 1, locationPending := false, onlineIntent := false,
         trace := s.trace + [Offline(s.locationRevision + 1)])
  }

  class MasterPresenceSession {
    var live: bool
    var onlineIntent: bool
    var locationPending: bool
    var locationRevision: nat
    var offerRevision: nat
    var offerLock: bool
    var currentOffer: Option<Offer>
    var action: Option<Action>
    ghost var trace: seq<Observation>

    ghost function Abs(): Presence
      reads this
    {
      Presence(live, onlineIntent, locationPending, locationRevision, offerRevision, offerLock,
               currentOffer, action, trace)
    }

    constructor ()
      ensures Abs() == START
    {
      live, onlineIntent, locationPending, locationRevision := true, false, false, 0;
      offerRevision, offerLock, currentOffer, action, trace := 0, false, None, None, [];
    }

    method Unmount()
      modifies this
      ensures Abs() == AfterUnmount(old(Abs()))
    {
      live := false;
      locationRevision := locationRevision + 1;
      offerRevision := offerRevision + 1;
      trace := trace + [Gone(locationRevision)];
    }

    method Restore() returns (revision: nat)
      modifies this
      ensures Abs() == AfterRestore(old(Abs())) && revision == offerRevision
    {
      if live { offerRevision := offerRevision + 1; }
      return offerRevision;
    }

    method Restored(revision: nat, answer: Option<Option<Offer>>, now: int)
      modifies this
      ensures Abs() == AfterRestored(old(Abs()), revision, answer, now)
    {
      if answer.None? || !live || offerRevision != revision { return; }
      var pending := answer.value;
      if pending.Some? && pending.value.deadline > now {
        currentOffer := pending;
      } else if currentOffer.Some? && currentOffer.value.direct {
        currentOffer := None;
      }
    }

    method OnOffer(incoming: Offer)
      modifies this
      ensures Abs() == AfterOffer(old(Abs()), incoming)
    {
      if !live { return; }
      offerRevision := offerRevision + 1;
      currentOffer := Some(incoming);
    }

    method OnClosed(orderId: string, offerId: Option<string>)
      modifies this
      ensures Abs() == AfterClosed(old(Abs()), orderId, offerId)
    {
      if !live { return; }
      offerRevision := offerRevision + 1;
      if currentOffer.Some? && Closes(currentOffer.value, orderId, offerId) { currentOffer := None; }
    }

    method ClearAccepted(captured: Offer)
      modifies `currentOffer
      ensures Abs() == Cleared(old(Abs()), captured)
    {
      if currentOffer.Some? && currentOffer.value.orderId == captured.orderId &&
         currentOffer.value.offerId == captured.offerId {
        currentOffer := None;
      }
    }

    method Accept(offer: Offer, now: int, onLine: bool)
      modifies this
      ensures Abs() == AfterAccept(old(Abs()), offer, now, onLine)
    {
      if !live || currentOffer != Some(offer) || offerLock || offer.deadline <= now || !onLine { return; }
      offerRevision := offerRevision + 1;
      offerLock, action := true, Some(Accepting(offer));
      trace := trace + [Sent(offer)];
    }

    method Decline(offer: Offer, onLine: bool)
      modifies this
      ensures Abs() == AfterDecline(old(Abs()), offer, onLine)
    {
      if !live || currentOffer != Some(offer) || offerLock || !onLine { return; }
      offerRevision := offerRevision + 1;
      offerLock, action := true, Some(Declining(offer));
      if offer.direct {
        trace := trace + [Sent(offer)];
      } else {
        ClearAccepted(offer);
        offerRevision := offerRevision + 1;
        offerLock, action := false, None;
      }
    }

    method ActionAnswered(ok: bool)
      modifies this
      ensures Abs() == AfterActionAnswer(old(Abs()), ok)
    {
      if action.None? { return; }
      if !live {
        action := None;
        return;
      }
      var a := action.value;
      if (a.Accepting? || (a.Declining? && ok)) { ClearAccepted(a.offer); }
      if a.Accepting? && !ok {
        action := Some(Reconciling(a.offer));
      } else {
        offerRevision := offerRevision + 1;
        offerLock, action := false, None;
      }
    }

    method GoOnline(supported: bool)
      modifies this
      ensures Abs() == AfterGoOnline(old(Abs()), supported)
    {
      if !live || onlineIntent || locationPending || !supported { return; }
      locationRevision := locationRevision + 1;
      locationPending := true;
      trace := trace + [Asked(locationRevision)];
    }

    method PositionAnswered(revision: nat, ok: bool)
      modifies this
      ensures Abs() == AfterPosition(old(Abs()), revision, ok)
    {
      if !live || locationRevision != revision { return; }
      locationPending := false;
      if ok {
        onlineIntent := true;
        trace := trace + [Online(revision)];
      }
    }

    method TimedPosition(revision: nat)
      modifies this
      ensures Abs() == AfterTimedPosition(old(Abs()), revision)
    {
      if !live || locationRevision != revision || !onlineIntent { return; }
      trace := trace + [Geo(revision)];
    }

    method GoOffline()
      modifies this
      ensures Abs() == AfterGoOffline(old(Abs()))
    {
      if !live { return; }
      locationRevision := locationRevision + 1;
      locationPending, onlineIntent := false, false;
      trace := trace + [Offline(locationRevision)];
    }
  }
}
