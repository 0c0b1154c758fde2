/** The alert table against its audit trail: over every run each alert is what the recorded
    transitions, assignments and breaches made of it, and each answer says what was done. */
module AlertRecords {
  import opened Options
  import opened AlertLifecycle
  import opened AlertLifecycleLaws

  /** Who acknowledged the alert, by the audit trail. */
  function AcknowledgedBy(audit: seq<AuditEvent>, id: Id): Option<Id> {
    if audit == [] then None
    else
      var o := audit[|audit| - 1];
      if o.Acknowledged? && o.id == id then Some(o.operator) else AcknowledgedBy(audit[..|audit| - 1], id)
  }

  function ResolvedBy(audit: seq<AuditEvent>, id: Id): Option<Id> {
    if audit == [] then None
    else
      var o := audit[|audit| - 1];
      if o.Resolved? && o.id == id then Some(o.operator) else ResolvedBy(audit[..|audit| - 1], id)
  }

  /** Who the alert is assigned to: acknowledging takes an alert nobody has. */
  function AssignedTo(audit: seq<AuditEvent>, id: Id): Option<Id> {
    if audit == [] then None
    else
      var o, before := audit[|audit| - 1], AssignedTo(audit[..|audit| - 1], id);
      if o.Assigned? && o.id == id then o.assignee
      else if o.Acknowledged? && o.id == id && before.None? then Some(o.operator)
      else before
  }

  /** The last recorded breach of the alert. */
  function LastBreach(audit: seq<AuditEvent>, id: Id): Option<AuditEvent> {
    if audit == [] then None
    else
      var o := audit[|audit| - 1];
      if o.Breach? && o.id == id then Some(o) else LastBreach(audit[..|audit| - 1], id)
  }

  /** Open until acknowledged or resolved; the first deadline missed is level 1, the second level 2. */
  ghost predicate Recorded(s: System, id: Id) {
    if id !in s.alerts then
      && AcknowledgedBy(s.audit, id).None? && ResolvedBy(s.audit, id).None? && AssignedTo(s.audit, id).None?
      && LastBreach(s.audit, id).None?
    else
      var a := s.alerts[id];
      && a.acknowledgedBy == AcknowledgedBy(s.audit, id)
      && a.resolvedBy == ResolvedBy(s.audit, id)
      && a.assignedTo == AssignedTo(s.audit, id)
      && (a.status == RESOLVED <==> ResolvedBy(s.audit, id).Some?)
      && (a.status == ACKNOWLEDGED <==> AcknowledgedBy(s.audit, id).Some? && ResolvedBy(s.audit, id).None?)
      && (match LastBreach(s.audit, id)
          case None => a.level == 0
          case Some(b) => b == Breach(id, if a.level == 1 then ACK_SLA_BREACH else RESOLUTION_SLA_BREACH, a.level)
                          && 1 <= a.level <= 2)
  }

  lemma Appended(audit: seq<AuditEvent>, o: AuditEvent, id: Id)
    ensures var after := audit + [o];
            && AcknowledgedBy(after, id)
               == (if o.Acknowledged? && o.id == id then Some(o.operator) else AcknowledgedBy(audit, id))
            && ResolvedBy(after, id) == (if o.Resolved? && o.id == id then Some(o.operator) else ResolvedBy(audit, id))
            && AssignedTo(after, id)
               == (if o.Assigned? && o.id == id then o.assignee
                   else if o.Acknowledged? && o.id == id && AssignedTo(audit, id).None? then Some(o.operator)
                   else AssignedTo(audit, id))
            && LastBreach(after, id) == (if o.Breach? && o.id == id then Some(o) else LastBreach(audit, id))
  {
    assert (audit + [o])[..|audit|] == audit;
  }

  lemma StepRecorded(s: System, e: Event, id: Id)
    requires Recorded(s, id)
    ensures Recorded(Step(s, e), id)
  {
    hide AcknowledgedBy, ResolvedBy, AssignedTo, LastBreach;
    match e
    case Transition(operator, i, to, _) =>
      Appended(s.audit, Acknowledged(i, operator), id);
      Appended(s.audit, Resolved(i, operator), id);
    case Assign(operator, i, assignee, _) => Appended(s.audit, Assigned(i, operator, assignee), id);
    case EscalateOne(c, _) => Appended(s.audit, Breach(c.id, c.DeliveryReason(), c.TargetLevel()), id);
    case _ =>
  }

  /** In every run each alert is what its audit trail says: its status, who acknowledged and resolved
      it, who it is assigned to, and its level. */
  lemma {:induction false} AlertsAreRecorded(events: seq<Event>, id: Id)
    ensures Recorded(Run(events), id)
  {
    hide Step, Recorded;
    if events == [] {
      NothingRecorded(id);
    } else {
      AlertsAreRecorded(events[..|events| - 1], id);
      StepRecorded(Run(events[..|events| - 1]), events[|events| - 1], id);
    }
  }

  lemma NothingRecorded(id: Id)
    ensures Recorded(Run([]), id)
  {
  }

  // ---------------------------------------------------------------- answers

  /** A transition is done exactly if it takes a known alert forward; then the alert has the status
      asked for, recorded under the operator. Otherwise nothing changes and the answer says why:
      there is no going back to OPEN, the alert is unknown, it has that status already, or it is
      resolved. No other refusal is ever given. */
  lemma TransitionAnswered(s: System, operator: Id, id: Id, to: Status, note: Option<string>)
    ensures var (t, r) := AfterTransition(s, operator, id, to, note);
            && (r == Done <==> id in s.alerts && Rank(to) > Rank(s.alerts[id].status))
            && (r == Done ==>
                  && id in t.alerts && t.alerts[id].status == to
                  && t.audit == s.audit + [if to == RESOLVED then Resolved(id, operator)
                                        else Acknowledged(id, operator)]
                  && t.alerts[id].note == (if note.Some? then note else s.alerts[id].note))
            && (r != Done ==> t == s)
            && (r == Rejected <==> to == OPEN)
            && (r == NotFound <==> to != OPEN && id !in s.alerts)
            && (r == Unchanged <==> to != OPEN && id in s.alerts && s.alerts[id].status == to)
            && (r == AlreadyResolved <==> to == ACKNOWLEDGED && id in s.alerts && s.alerts[id].status == RESOLVED)
            && r != NotAllowed
  {
  }

  /** An assignment is done exactly if the assignee, where there is one, is an operator and the alert is
      known and not resolved; otherwise nothing changes, and these are the three refusals. */
  lemma AssignmentAnswered(s: System, operator: Id, id: Id, assignee: Option<Id>, isOperator: bool)
    ensures var (t, r) := AfterAssign(s, operator, id, assignee, isOperator);
            && (r == Rejected <==> assignee.Some? && !isOperator)
            && (r == NotFound <==> (assignee.Some? ==> isOperator) && id !in s.alerts)
            && (r == AlreadyResolved <==>
                  (assignee.Some? ==> isOperator) && id in s.alerts && s.alerts[id].status == RESOLVED)
            && (r in {Rejected, NotFound, AlreadyResolved} ==> t == s)
            && (r !in {Rejected, NotFound, AlreadyResolved} ==>
                  && r == Done && id in t.alerts && t.alerts[id].assignedTo == assignee
                  && t.alerts[id].status == s.alerts[id].status
                  && t.audit == s.audit + [Assigned(id, operator, assignee)])
  {
  }

  /** An escalation of a selected alert happens exactly if it still has the status it was selected
      with and that deadline was not yet counted; an open alert goes to level 1, an acknowledged one
      to level 2. */
  lemma EscalationDone(s: System, id: Id, st: Status, now: int)
    requires id in s.alerts && st != RESOLVED
    ensures var t := AfterEscalate(s, Candidate(id, st), now);
            var level := if st == OPEN then 1 else 2;
            if s.alerts[id].status == st && s.alerts[id].level < level
            then t.alerts[id].level == level && t.alerts[id].escalatedAt == Some(now)
                 && t.audit == s.audit + [Breach(id, if st == OPEN then ACK_SLA_BREACH else RESOLUTION_SLA_BREACH,
                                                level)]
            else t == s
  {
  }

  // ---------------------------------------------------------------- deadlines

  /** A deadline the alert has missed and that its level does not count yet. */
  predicate Missed(a: Alert, now: int) {
    || (a.status == OPEN && a.level == 0 && a.acknowledgeBy.Some? && a.acknowledgeBy.value <= now)
    || (a.status == ACKNOWLEDGED && a.level <= 1 && a.resolveBy.Some? && a.resolveBy.value <= now)
  }

  /** A sweep raises only alerts that missed a deadline, and as many of them as its limit allows. */
  lemma {:induction false} SweepRaisesMissed(s: System, now: int, limit: nat, cs: seq<Candidate>, id: Id)
    requires Selected(s, now, limit, cs) && id in s.alerts
    ensures var t := AfterEscalateAll(s, cs, now);
            && id in t.alerts
            && (t.alerts[id] != s.alerts[id] ==> Missed(s.alerts[id], now))
            && (|OverdueIds(s, now)| <= limit ==> !Missed(t.alerts[id], now))
  {
    SweepTakes(s, now, limit, cs);
    SweepKeepsAlerts(s, cs, now);
    var t := AfterEscalateAll(s, cs, now);
    if id in Ids(cs) { assert id in OverdueIds(s, now); }
    if |OverdueIds(s, now)| <= limit { EmptyOverdue(t, now, id); }
  }

  lemma {:induction false} SweepKeepsAlerts(s: System, cs: seq<Candidate>, now: int)
    ensures AfterEscalateAll(s, cs, now).alerts.Keys == s.alerts.Keys
  {
    if cs != [] { SweepKeepsAlerts(s, cs[..|cs| - 1], now); }
  }

  lemma EmptyOverdue(t: System, now: int, id: Id)
    requires |OverdueIds(t, now)| == 0 && id in t.alerts
    ensures !Missed(t.alerts[id], now)
  {
    assert OverdueIds(t, now) == {};
    assert id !in OverdueIds(t, now);
  }

  /** After enough sweeps no missed deadline is left uncounted. */
  lemma {:induction false} DeadlinesAreCounted(s: System, now: int, limit: nat, picks: seq<seq<Candidate>>, id: Id)
    requires AllSelected(s, now, limit, picks) && |OverdueIds(s, now)| <= |picks| * limit
    requires id in Sweeps(s, now, picks).alerts
    ensures !Missed(Sweeps(s, now, picks).alerts[id], now)
  {
    SweepsFinish(s, now, limit, picks);
    EmptyOverdue(Sweeps(s, now, picks), now, id);
  }
}
