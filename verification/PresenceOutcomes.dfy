/** What becomes of an offer that is accepted or declined, and of a position asked for. */
module PresenceOutcomes {
  import opened Options
  import opened MasterPresence
  import opened MasterPresenceLaws

  // ---------------------------------------------------------------- offers

  /** Another offer than this one, or none, is shown. */
  predicate OffScreen(s: Presence, offer: Offer) {
    s.currentOffer.Some? ==>
      s.currentOffer.value.orderId != offer.orderId || s.currentOffer.value.offerId != offer.offerId
  }

  /** Nothing ends the component or answers the action. */
  predicate Between(events: seq<Event>) {
    forall e :: e in events ==> !e.Unmount? && !e.ActionAnswered?
  }

  lemma WaitingStep(s: Presence, e: Event)
    requires s.live && s.offerLock && s.action.Some? && !e.Unmount? && !e.ActionAnswered?
    ensures var t := Step(s, e); t.live && t.offerLock && t.action == s.action
  {
  }

  lemma {:induction false} Waiting(s: Presence, events: seq<Event>)
    requires s.live && s.offerLock && s.action.Some? && Between(events)
    ensures var t := Run(s, events); t.live && t.offerLock && t.action == s.action
  {
    hide Step;
    if events != [] {
      var k := |events| - 1;
      assert events[k] in events && forall e :: e in events[..k] ==> e in events;
      Waiting(s, events[..k]);
      WaitingStep(Run(s, events[..k]), events[k]);
    }
  }

  /** An accept that may go out is sent once. Whatever comes before its answer, the lock stays; the
      answer, good or bad, takes the offer off the screen. A good one opens the lock, a bad one only
      after one more read. */
  lemma {:induction false} AcceptOutcome(
    s: Presence, offer: Offer, now: int, before: seq<Event>, ok: bool, after: seq<Event>, read: bool)
    requires MayAccept(s, offer, now, true) && Between(before) && Between(after)
    ensures var asked := Step(s, Accept(offer, now, true));
            var answered := Step(Run(asked, before), ActionAnswered(ok));
            var t := Run(answered, after);
            && asked.trace == s.trace + [Sent(offer)] && asked.offerLock
            && Run(asked, before).offerLock
            && OffScreen(answered, offer)
            && (answered.offerLock <==> !ok)
            && (!ok ==> t.offerLock && !Step(t, ActionAnswered(read)).offerLock)
  {
    var asked := Step(s, Accept(offer, now, true));
    Waiting(asked, before);
    var answered := Step(Run(asked, before), ActionAnswered(ok));
    if !ok { Waiting(answered, after); }
  }

  /** A decline of a direct payment is sent, and the offer goes once the server has taken it; if the
      server fails, what is shown stays. Any other decline needs no server and is over at once. */
  lemma {:induction false} DeclineOutcome(s: Presence, offer: Offer, before: seq<Event>, ok: bool)
    requires MayDecline(s, offer, true) && Between(before)
    ensures var asked := Step(s, Decline(offer, true));
            if offer.direct then
              var waiting := Run(asked, before);
              var t := Step(waiting, ActionAnswered(ok));
              && asked.trace == s.trace + [Sent(offer)] && asked.offerLock && waiting.offerLock && !t.offerLock
              && (if ok then OffScreen(t, offer) else t.currentOffer == waiting.currentOffer)
            else asked.trace == s.trace && asked.currentOffer == None && !asked.offerLock
  {
    if offer.direct { Waiting(Step(s, Decline(offer, true)), before); }
  }

  // ---------------------------------------------------------------- availability

  /** What ends a request for a position: going off line, leaving, or a new request. */
  predicate Ends(s: Presence, e: Event) {
    || e.Unmount?
    || (e.GoOffline? && s.live)
    || (e.GoOnline? && s.live && !s.onlineIntent && !s.locationPending && e.supported)
  }

  ghost predicate Kept(s: Presence, events: seq<Event>) {
    events == [] || (var k := |events| - 1; Kept(s, events[..k]) && !Ends(Run(s, events[..k]), events[k]))
  }

  lemma RevisionStep(s: Presence, e: Event)
    ensures Step(s, e).locationRevision >= s.locationRevision
    ensures Step(s, e).locationRevision == s.locationRevision <==> !Ends(s, e)
    ensures !Ends(s, e) ==> Step(s, e).live == s.live
  {
  }

  lemma {:induction false} Revisions(s: Presence, events: seq<Event>)
    ensures var t := Run(s, events);
            && t.locationRevision >= s.locationRevision
            && (t.locationRevision == s.locationRevision <==> Kept(s, events))
            && (Kept(s, events) ==> t.live == s.live)
  {
    hide Step, Ends;
    if events != [] {
      Revisions(s, events[..|events| - 1]);
      RevisionStep(Run(s, events[..|events| - 1]), events[|events| - 1]);
    }
  }

  lemma {:induction false} AskedStays(s: Presence, events: seq<Event>, revision: nat)
    requires Asked(revision) in s.trace
    ensures Asked(revision) in Run(s, events).trace
  {
    hide Step;
    if events != [] {
      AskedStays(s, events[..|events| - 1], revision);
      TraceGrows(Run(s, events[..|events| - 1]), events[|events| - 1]);
    }
  }

  lemma TraceGrows(s: Presence, e: Event)
    ensures forall o :: o in s.trace ==> o in Step(s, e).trace
  {
  }

  /** A position asked for takes the master on line exactly if nothing ended the request before it
      came; otherwise it does nothing, however late. */
  lemma {:induction false} PositionInTime(s: Presence, more: seq<Event>)
    requires s.live && !s.onlineIntent && !s.locationPending
    ensures var asked := Step(s, GoOnline(true));
            var t := Run(asked, more);
            var u := Step(t, Position(asked.locationRevision, true));
            if Kept(asked, more)
            then u.onlineIntent && !u.locationPending && u.trace == t.trace + [Online(asked.locationRevision)]
            else u == t
  {
    var asked := Step(s, GoOnline(true));
    assert asked.trace[|s.trace|] == Asked(asked.locationRevision);
    Revisions(asked, more);
    AskedStays(asked, more, asked.locationRevision);
    hide Kept;
  }

  // ---------------------------------------------------------------- what is shown

  /** What a pending-offer read that is in time leaves on the screen: an offer that is still open; and
      if there is none, whatever was shown, except a direct payment. */
  lemma RestoredShows(s: Presence, answer: Option<Offer>, now: int)
    requires s.live
    ensures var t := AfterRestored(s, s.offerRevision, Some(answer), now);
            t.currentOffer
            == if answer.Some? && now < answer.value.deadline then answer
               else if s.currentOffer.Some? && s.currentOffer.value.direct then None
               else s.currentOffer
  {
  }

  /** A closing message takes the offer shown off the screen exactly if it is about its order and does
      not name another offer; a new offer is shown at once. Both make earlier reads stale. */
  lemma ClosedRemovesIff(s: Presence, orderId: string, offerId: Option<string>, incoming: Offer)
    requires s.live
    ensures var t := AfterClosed(s, orderId, offerId);
            && t.offerRevision > s.offerRevision
            && (t.currentOffer == None || t.currentOffer == s.currentOffer)
            && (s.currentOffer.Some? ==>
                  var shown := s.currentOffer.value;
                  (t.currentOffer.None? <==>
                     && shown.orderId == orderId
                     && !(offerId.Some? && offerId.value != "" && shown.offerId.Some? && shown.offerId.value != ""
                          && offerId.value != shown.offerId.value)))
    ensures var t := AfterOffer(s, incoming); t.currentOffer == Some(incoming) && t.offerRevision > s.offerRevision
  {
  }
}
