/** The life of a security alert: operator transitions and assignment
    (apps/api/src/admin/security-observability.service.ts:175-266) and the escalation sweep
    (apps/api/src/admin/security-alert-delivery.service.ts:232-297). Each transaction is one
    step; a sweep selects candidates first and escalates them one by one, so transitions may
    come in between. */
module AlertLifecycle {
  import opened Options

  type Id = string

  datatype Status = OPEN | ACKNOWLEDGED | RESOLVED

  datatype Reason = ACK_SLA_BREACH | RESOLUTION_SLA_BREACH

  datatype Alert = Alert(
    status: Status, acknowledgeBy: Option<int>, resolveBy: Option<int>, level: nat, escalatedAt: Option<int>,
    acknowledgedBy: Option<Id>, resolvedBy: Option<Id>, assignedTo: Option<Id>, note: Option<string>)

  /** The unique dedupe key of a breach delivery. */
  datatype Key = Key(alertId: Id, reason: Reason, level: nat)

  datatype AuditEvent =
    | Breach(id: Id, reason: Reason, level: nat)
    | Acknowledged(id: Id, operator: Id)
    | Resolved(id: Id, operator: Id)
    | Assigned(id: Id, operator: Id, assignee: Option<Id>)

  datatype System = System(alerts: map<Id, Alert>, audit: seq<AuditEvent>, deliveries: seq<Key>)

  datatype Answer = Done | Unchanged | NotFound | AlreadyResolved | NotAllowed | Rejected

  // ---------------------------------------------------------------- operators

  function OrElse<T>(a: Option<T>, b: Option<T>): Option<T> { if a.Some? then a else b }

  /** transition: to ACKNOWLEDGED from OPEN, or to RESOLVED from either. */
  function AfterTransition(s: System, operator: Id, id: Id, to: Status, note: Option<string>): (System, Answer) {
    if to == OPEN then (s, Rejected)
    else if id !in s.alerts then (s, NotFound)
    else
      var a := s.alerts[id];
      if to == ACKNOWLEDGED && a.status == OPEN then
        (s.(alerts := s.alerts[id := a.(status := ACKNOWLEDGED, acknowledgedBy := Some(operator),
                                        assignedTo := OrElse(a.assignedTo, Some(operator)),
                                        note := OrElse(note, a.note))],
            audit := s.audit + [Acknowledged(id, operator)]), Done)
      else if to == RESOLVED && a.status != RESOLVED then
        (s.(alerts := s.alerts[id := a.(status := RESOLVED, resolvedBy := Some(operator),
                                        note := OrElse(note, a.note))],
            audit := s.audit + [Resolved(id, operator)]), Done)
      else if a.status == to then (s, Unchanged)
      else if a.status == RESOLVED then (s, AlreadyResolved)
      else (s, NotAllowed)
  }

  /** assign; isOperator: the assignee exists and is an operator. */
  function AfterAssign(s: System, operator: Id, id: Id, assignee: Option<Id>, isOperator: bool): (System, Answer) {
    if assignee.Some? && !isOperator then (s, Rejected)
    else if id !in s.alerts then (s, NotFound)
    else if s.alerts[id].status == RESOLVED then (s, AlreadyResolved)
    else
      (s.(alerts := s.alerts[id := s.alerts[id].(assignedTo := assignee)],
          audit := s.audit + [Assigned(id, operator, assignee)]), Done)
  }

  // ---------------------------------------------------------------- escalation

  /** The WHERE clause of escalateOverdue. */
  predicate Overdue(a: Alert, now: int) {
    || (a.status == OPEN && a.acknowledgeBy.Some? && a.acknowledgeBy.value <= now && a.level < 1)
    || (a.status == ACKNOWLEDGED && a.resolveBy.Some? && a.resolveBy.value <= now && a.level < 2)
  }

  /** What the sweep remembers of an alert it selected. */
  datatype Candidate = Candidate(id: Id, status: Status)
  {
    function TargetLevel(): nat { if status == OPEN then 1 else 2 }
    function DeliveryReason(): Reason { if status == OPEN then ACK_SLA_BREACH else RESOLUTION_SLA_BREACH }
    function DedupeKey(): Key { Key(id, DeliveryReason(), TargetLevel()) }
  }

  /** The WHERE clause of the UPDATE in escalateOne. */
  predicate Escalates(s: System, c: Candidate) {
    c.id in s.alerts && s.alerts[c.id].status == c.status && s.alerts[c.id].level < c.TargetLevel()
  }

  /** escalateOne: the level, the audit event, and a delivery unless its key exists. */
  function AfterEscalate(s: System, c: Candidate, now: int): System {
    if !Escalates(s, c) then s
    else
      s.(alerts := s.alerts[c.id := s.alerts[c.id].(level := c.TargetLevel(), escalatedAt := Some(now))],
         audit := s.audit + [Breach(c.id, c.DeliveryReason(), c.TargetLevel())],
         deliveries := if c.DedupeKey() in s.deliveries then s.deliveries else s.deliveries + [c.DedupeKey()])
  }

  function AfterEscalateAll(s: System, cs: seq<Candidate>, now: int): System {
    if cs == [] then s else AfterEscalate(AfterEscalateAll(s, cs[..|cs| - 1], now), cs[|cs| - 1], now)
  }

  class SecurityAlerts {
    var alerts: map<Id, Alert>
    var audit: seq<AuditEvent>
    var deliveries: seq<Key>

    ghost function Abs(): System
      reads this
    {
      System(alerts, audit, deliveries)
    }

    constructor ()
      ensures Abs() == System(map[], [], [])
    {
      alerts, audit, deliveries := map[], [], [];
    }

    method Transition(operator: Id, id: Id, to: Status, note: Option<string>) returns (r: Answer)
      modifies this
      ensures (Abs(), r) == AfterTransition(old(Abs()), operator, id, to, note)
    {
      if to == OPEN { return Rejected; }
      if id in alerts {
        var a := alerts[id];
        if to == ACKNOWLEDGED && a.status == OPEN {
          alerts := alerts[id := a.(status := ACKNOWLEDGED, acknowledgedBy := Some(operator),
                                    assignedTo := OrElse(a.assignedTo, Some(operator)), note := OrElse(note, a.note))];
          audit := audit + [Acknowledged(id, operator)];
          return Done;
        }
        if to == RESOLVED && a.status != RESOLVED {
          alerts := alerts[id := a.(status := RESOLVED, resolvedBy := Some(operator), note := OrElse(note, a.note))];
          audit := audit + [Resolved(id, operator)];
          return Done;
        }
      }
      if id !in alerts { return NotFound; }
      if alerts[id].status == to { return Unchanged; }
      return if alerts[id].status == RESOLVED then AlreadyResolved else NotAllowed;
    }

    method Assign(operator: Id, id: Id, assignee: Option<Id>, isOperator: bool) returns (r: Answer)
      modifies this
      ensures (Abs(), r) == AfterAssign(old(Abs()), operator, id, assignee, isOperator)
    {
      if assignee.Some? && !isOperator { return Rejected; }
      if id !in alerts { return NotFound; }
      if alerts[id].status == RESOLVED { return AlreadyResolved; }
      alerts := alerts[id := alerts[id].(assignedTo := assignee)];
      audit := audit + [Assigned(id, operator, assignee)];
      return Done;
    }

    method EscalateOne(c: Candidate, now: int)
      modifies this
      ensures Abs() == AfterEscalate(old(Abs()), c, now)
    {
      if c.id !in alerts || alerts[c.id].status != c.status || alerts[c.id].level >= c.TargetLevel() { return; }
      alerts := alerts[c.id := alerts[c.id].(level := c.TargetLevel(), escalatedAt := Some(now))];
      audit := audit + [Breach(c.id, c.DeliveryReason(), c.TargetLevel())];
      if c.DedupeKey() !in deliveries { deliveries := deliveries + [c.DedupeKey()]; }
    }

    /** The loop of escalateOverdue over the selected candidates, undisturbed. */
    method EscalateOverdue(candidates: seq<Candidate>, now: int)
      modifies this
      ensures Abs() == AfterEscalateAll(old(Abs()), candidates, now)
    {
      assert candidates[..|candidates|] == candidates;
      for i := 0 to |candidates|
        invariant Abs() == AfterEscalateAll(old(Abs()), candidates[..i], now)
      {
        EscalateOne(candidates[i], now);
        assert candidates[..i + 1][..i] == candidates[..i];
      }
    }
  }
}
