/** Over every run: a late pending-offer answer is applied only if nothing newer happened to the
    offer, actions come one at a time, and going off line silences what was asked before. */
module MasterPresenceLaws {
  import opened Options
  import opened MasterPresence

  datatype Event =
    | Unmount
    | Restore
    | Restored(revision: nat, answer: Option<Option<Offer>>, now: int)
    | NewOffer(offer: Offer)
    | Closed(orderId: string, offerId: Option<string>)
    | Accept(offer: Offer, now: int, onLine: bool)
    | Decline(offer: Offer, onLine: bool)
    | ActionAnswered(ok: bool)
    | GoOnline(supported: bool)
    | Position(revision: nat, ok: bool)
    | TimedPosition(revision: nat)
    | GoOffline

  /** A position answers a request that was made, whenever; a timer may fire at any time. */
  function Step(s: Presence, e: Event): Presence {
    match e
    case Unmount => AfterUnmount(s)
    case Restore => AfterRestore(s)
    case Restored(revision, answer, now) => AfterRestored(s, revision, answer, now)
    case NewOffer(offer) => AfterOffer(s, offer)
    case Closed(orderId, offerId) => AfterClosed(s, orderId, offerId)
    case Accept(offer, now, onLine) => AfterAccept(s, offer, now, onLine)
    case Decline(offer, onLine) => AfterDecline(s, offer, onLine)
    case ActionAnswered(ok) => AfterActionAnswer(s, ok)
    case GoOnline(supported) => AfterGoOnline(s, supported)
    case Position(revision, ok) => if Asked(revision) in s.trace then AfterPosition(s, revision, ok) else s
    case TimedPosition(revision) => if Online(revision) in s.trace then AfterTimedPosition(s, revision) else s
    case GoOffline => AfterGoOffline(s)
  }

  function Run(s: Presence, events: seq<Event>): Presence {
    if events == [] then s else Step(Run(s, events[..|events| - 1]), events[|events| - 1])
  }

  // ---------------------------------------------------------------- offers

  /** The lock is held exactly while an action is in flight. */
  ghost predicate Locked(s: Presence) { s.live ==> (s.offerLock <==> s.action.Some?) }

  /** What happens to the offer: a newer read of it, a new or closed offer, an accept or decline
      beginning or ending. */
  predicate Boundary(s: Presence, e: Event) {
    match e
    case Restore => true
    case NewOffer(_) => true
    case Closed(_, _) => true
    case Accept(offer, now, onLine) => MayAccept(s, offer, now, onLine)
    case Decline(offer, onLine) => MayDecline(s, offer, onLine)
    case ActionAnswered(ok) => s.action.Some? && !(s.action.value.Accepting? && !ok)
    case _ => false
  }

  /** No boundary among the events. */
  ghost predicate Undisturbed(s: Presence, events: seq<Event>) {
    events == [] ||
    (var k := |events| - 1; Undisturbed(s, events[..k]) && !Boundary(Run(s, events[..k]), events[k]))
  }

  lemma BoundaryMoves(s: Presence, e: Event)
    ensures Step(s, e).offerRevision >= s.offerRevision
    ensures Step(s, e).live ==> s.live && (Step(s, e).offerRevision > s.offerRevision <==> Boundary(s, e))
  {
  }

  lemma {:induction false} OfferRevisionTells(s: Presence, events: seq<Event>)
    ensures var t := Run(s, events);
            && t.offerRevision >= s.offerRevision
            && (t.live ==> s.live && (t.offerRevision == s.offerRevision <==> Undisturbed(s, events)))
  {
    if events != [] {
      var k := |events| - 1;
      OfferRevisionTells(s, events[..k]);
      BoundaryMoves(Run(s, events[..k]), events[k]);
    }
  }

  /** Whatever happens between a pending-offer GET and its answer, the answer is applied exactly
      if the component is still live and nothing happened to the offer; otherwise it changes
      nothing. An applied answer shows an offer still open; one that confirms none drops an
      offer with a direct payment and keeps any other. */
  lemma {:induction false} RestoreInTime(s: Presence, events: seq<Event>, answer: Option<Offer>, now: int)
    requires s.live
    ensures var asked := AfterRestore(s);
            var t := Run(asked, events);
            var u := AfterRestored(t, asked.offerRevision, Some(answer), now);
            if t.live && Undisturbed(asked, events)
            then u == t.(currentOffer := Merged(StillOpen(answer, now), t.currentOffer))
            else u == t
  {
    OfferRevisionTells(AfterRestore(s), events);
  }

  // ---------------------------------------------------------------- one action at a time

  lemma LockStep(s: Presence, e: Event)
    requires Locked(s)
    ensures Locked(Step(s, e))
  {
  }

  lemma {:induction false} LockKept(events: seq<Event>)
    ensures Locked(Run(START, events))
  {
    hide Step;
    if events != [] {
      var k := |events| - 1;
      LockKept(events[..k]);
      LockStep(Run(START, events[..k]), events[k]);
    }
  }

  /** An accept or a decline goes to the server only when no other action is in flight, and only
      for the offer shown at that moment. */
  lemma {:induction false} ActionsAlone(events: seq<Event>, e: Event)
    ensures var s := Run(START, events);
            var t := Step(s, e);
            |t.trace| > |s.trace| && t.trace[|s.trace|].Sent? ==>
              s.live && s.action.None? && s.currentOffer == Some(t.trace[|s.trace|].offer) && t.offerLock
  {
    LockKept(events);
  }

  // ---------------------------------------------------------------- availability

  predicate IsEmission(o: Observation) { o.Online? || o.Geo? }

  predicate IsEnd(o: Observation) { o.Offline? || o.Gone? }

  predicate IsRevision(o: Observation) { o.Asked? || IsEnd(o) || IsEmission(o) }

  /** Whatever is emitted after going off line (or unmounting) was asked for after it. */
  ghost predicate EndsSilence(trace: seq<Observation>) {
    forall i, j :: 0 <= i < j < |trace| && IsEnd(trace[i]) && IsEmission(trace[j]) ==>
      AskedBetween(trace, i, j, trace[j].revision)
  }

  ghost predicate AskedBetween(trace: seq<Observation>, i: int, j: int, revision: nat)
    requires 0 <= i < j <= |trace|
  {
    exists k :: i < k < j && trace[k] == Asked(revision)
  }

  /** Revisions in the trace never exceed the current one, an end is newer than what was asked
      before it, and nothing emitted is older than the end before it. */
  ghost predicate Numbered(s: Presence) {
    && (forall o :: o in s.trace && IsRevision(o) ==> o.revision <= s.locationRevision)
    && (forall i, j :: 0 <= i < j < |s.trace| && s.trace[i].Asked? && IsEnd(s.trace[j]) ==>
          s.trace[i].revision < s.trace[j].revision)
    && (forall r :: Online(r) in s.trace ==> Asked(r) in s.trace)
  }

  /** The server was last told what is intended. */
  ghost predicate Agrees(s: Presence) {
    s.live ==> (s.onlineIntent <==> LastOnline(s.trace))
  }

  predicate LastOnline(trace: seq<Observation>) {
    if trace == [] then false
    else
      var o := trace[|trace| - 1];
      if o.Online? then true else if IsEnd(o) then false else LastOnline(trace[..|trace| - 1])
  }

  lemma LastAppended(trace: seq<Observation>, o: Observation)
    ensures LastOnline(trace + [o]) == if o.Online? then true else if IsEnd(o) then false else LastOnline(trace)
  {
    assert (trace + [o])[..|trace|] == trace;
  }

  /** The current revision was asked for after every end. */
  lemma AskedLast(s: Presence, i: int, revision: nat)
    requires Numbered(s) && 0 <= i < |s.trace| && IsEnd(s.trace[i])
    requires revision == s.locationRevision && Asked(revision) in s.trace
    ensures AskedBetween(s.trace, i, |s.trace|, revision)
  {
    var k :| 0 <= k < |s.trace| && s.trace[k] == Asked(revision);
    assert s.trace[i] in s.trace && s.trace[i].revision <= revision;
    assert k > i;
  }

  lemma BetweenKept(trace: seq<Observation>, o: Observation, i: int, j: int, revision: nat)
    requires 0 <= i < j <= |trace| && AskedBetween(trace, i, j, revision)
    ensures AskedBetween(trace + [o], i, j, revision)
  {
    var k :| i < k < j && trace[k] == Asked(revision);
    assert (trace + [o])[k] == Asked(revision);
  }

  /** An emission of the current revision keeps the silence. */
  lemma SilenceKept(trace: seq<Observation>, o: Observation, s: Presence)
    requires EndsSilence(trace) && s.trace == trace && Numbered(s)
    requires IsEmission(o) ==> o.revision == s.locationRevision && Asked(o.revision) in trace
    ensures EndsSilence(trace + [o])
  {
    var after := trace + [o];
    forall i, j | 0 <= i < j < |after| && IsEnd(after[i]) && IsEmission(after[j])
      ensures AskedBetween(after, i, j, after[j].revision)
    {
      assert after[i] == trace[i];
      if j == |trace| {
        AskedLast(s, i, o.revision);
      } else {
        assert after[j] == trace[j];
      }
      BetweenKept(trace, o, i, j, after[j].revision);
    }
  }

  ghost predicate Inv(s: Presence) { Numbered(s) && EndsSilence(s.trace) && Agrees(s) }

  lemma Appends(s: Presence, t: Presence, o: Observation)
    requires Inv(s) && t.trace == s.trace + [o] && t.locationRevision >= s.locationRevision
    requires IsEmission(o) ==> o.revision == s.locationRevision && Asked(o.revision) in s.trace
    requires IsEnd(o) || o.Asked? ==> s.locationRevision < o.revision <= t.locationRevision
    requires t.live ==>
               s.live && (t.onlineIntent <==> if o.Online? then true else if IsEnd(o) then false else s.onlineIntent)
    ensures Inv(t)
  {
    SilenceKept(s.trace, o, s);
    LastAppended(s.trace, o);
    forall i, j | 0 <= i < j < |t.trace| && t.trace[i].Asked? && IsEnd(t.trace[j])
      ensures t.trace[i].revision < t.trace[j].revision
    {
      assert t.trace[i] == s.trace[i] && s.trace[i] in s.trace;
    }
    forall r | Online(r) in t.trace ensures Asked(r) in t.trace {
    }
  }

  /** No message, and nothing about the availability but that a position is no longer awaited. */
  lemma SilentKeeps(s: Presence, t: Presence)
    requires Inv(s) && t.trace == s.trace && t.locationRevision == s.locationRevision
    requires t.live == s.live && t.onlineIntent == s.onlineIntent
    ensures Inv(t)
  {
  }

  lemma PositionKeeps(s: Presence, revision: nat, ok: bool)
    requires Inv(s) && Asked(revision) in s.trace
    ensures Inv(AfterPosition(s, revision, ok))
  {
    var t := AfterPosition(s, revision, ok);
    if Valid(s, revision) && ok { Appends(s, t, Online(revision)); } else { SilentKeeps(s, t); }
  }

  lemma TimedPositionKeeps(s: Presence, revision: nat)
    requires Inv(s) && Online(revision) in s.trace
    ensures Inv(AfterTimedPosition(s, revision))
  {
    if Valid(s, revision) && s.onlineIntent { Appends(s, AfterTimedPosition(s, revision), Geo(revision)); }
  }

  lemma AcceptKeeps(s: Presence, offer: Offer, now: int, onLine: bool)
    requires Inv(s)
    ensures Inv(AfterAccept(s, offer, now, onLine))
  {
    if MayAccept(s, offer, now, onLine) { Appends(s, AfterAccept(s, offer, now, onLine), Sent(offer)); }
  }

  lemma DeclineKeeps(s: Presence, offer: Offer, onLine: bool)
    requires Inv(s)
    ensures Inv(AfterDecline(s, offer, onLine))
  {
    var t := AfterDecline(s, offer, onLine);
    if MayDecline(s, offer, onLine) && offer.direct { Appends(s, t, Sent(offer)); } else { SilentKeeps(s, t); }
  }

  lemma StepKeeps(s: Presence, e: Event)
    requires Inv(s)
    ensures Inv(Step(s, e))
  {
    hide Numbered, EndsSilence, Agrees, LastOnline;
    match e
    case Unmount => Appends(s, AfterUnmount(s), Gone(s.locationRevision + 1));
    case GoOnline(supported) =>
      var t := AfterGoOnline(s, supported);
      if !s.live || s.onlineIntent || s.locationPending || !supported { SilentKeeps(s, t); }
      else { Appends(s, t, Asked(s.locationRevision + 1)); }
    case GoOffline => if s.live { Appends(s, AfterGoOffline(s), Offline(s.locationRevision + 1)); }
    case Position(revision, ok) => if Asked(revision) in s.trace { PositionKeeps(s, revision, ok); }
    case TimedPosition(revision) => if Online(revision) in s.trace { TimedPositionKeeps(s, revision); }
    case Accept(offer, now, onLine) => AcceptKeeps(s, offer, now, onLine);
    case Decline(offer, onLine) => DeclineKeeps(s, offer, onLine);
    case _ => SilentKeeps(s, Step(s, e));
  }

  lemma {:induction false} RunKeeps(events: seq<Event>)
    ensures Inv(Run(START, events))
  {
    if events != [] {
      RunKeeps(events[..|events| - 1]);
      StepKeeps(Run(START, events[..|events| - 1]), events[|events| - 1]);
    }
  }

  /** Nothing asked for before going off line or leaving is emitted after it, and the server was
      last told that the master is on line exactly while that is intended. */
  lemma {:induction false} OffIsOff(events: seq<Event>)
    ensures var s := Run(START, events); EndsSilence(s.trace) && Agrees(s)
  {
    RunKeeps(events);
  }
}
