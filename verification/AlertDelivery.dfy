/** Delivery of security alerts to a webhook
    (apps/api/src/admin/security-alert-delivery.service.ts:84-230).

    Any number of workers run deliver at once, for the same or different rows. Each await is a
    step boundary; a statement or transaction on the database is one step and may fail. Times
    are milliseconds of one clock. */
module AlertDelivery {
  import opened Options

  type Id = string

  datatype Status = PENDING | SENDING | SENT | FAILED | EXHAUSTED

  datatype Row = Row(alertId: Id, status: Status, attemptCount: nat, nextAttemptAt: int, lastAttemptAt: Option<int>)

  /** A successful claim: the row and the attempt number it was given. */
  datatype Claim = Claim(id: Id, attempt: nat)

  /** Where a worker is between its awaits: claimed the row; found the alert; sent the request;
      got a good answer; stored SENT; has an error to record. */
  datatype Phase = Claimed | Found | Requested | Accepted | Stored | Failing

  datatype Observation =
    | Attempt(id: Id, attempt: nat, at: int)
    | Call(id: Id, attempt: nat)
    | ExhaustedEvent(id: Id, attempt: nat)

  /** trace records claims, webhook calls and the audit events written on exhaustion. */
  datatype System = System(
    maxAttempts: nat, rows: map<Id, Row>, workers: map<Claim, Phase>, trace: seq<Observation>)

  // ---------------------------------------------------------------- backoff

  function Pow2(n: nat): nat { if n == 0 then 1 else 2 * Pow2(n - 1) }

  function Min(a: int, b: int): int { if a <= b then a else b }

  /** Seconds until the next attempt after the given one failed. */
  function DelaySeconds(attempt: nat): nat {
    Min(3600, 60 * Pow2(if attempt == 0 then 0 else attempt - 1))
  }

  // ---------------------------------------------------------------- the steps of deliver

  predicate Claimable(s: System, id: Id, now: int) {
    && id in s.rows
    && (s.rows[id].status == PENDING || s.rows[id].status == FAILED)
    && s.rows[id].nextAttemptAt <= now
    && s.rows[id].attemptCount < s.maxAttempts
  }

  /** The claiming UPDATE. */
  function AfterClaim(s: System, id: Id, now: int): System {
    if !Claimable(s, id, now) then s
    else
      var n := s.rows[id].attemptCount + 1;
      s.(rows := s.rows[id := s.rows[id].(status := SENDING, attemptCount := n, lastAttemptAt := Some(now))],
         workers := s.workers[Claim(id, n) := Claimed],
         trace := s.trace + [Attempt(id, n, now)])
  }

  /** A worker ends, or its process dies. */
  function AfterEnd(s: System, c: Claim): System {
    s.(workers := s.workers - {c})
  }

  predicate At(s: System, c: Claim, p: Phase) { c in s.workers && s.workers[c] == p }

  function Goes(s: System, c: Claim, p: Phase): System {
    s.(workers := s.workers[c := p])
  }

  /** The alert is read. */
  function AfterLoad(s: System, c: Claim, exists_: bool): System {
    if !At(s, c, Claimed) then s else Goes(s, c, if exists_ then Found else Failing)
  }

  /** The webhook is called. */
  function AfterCall(s: System, c: Claim): System {
    if !At(s, c, Found) then s
    else Goes(s, c, Requested).(trace := s.trace + [Call(c.id, c.attempt)])
  }

  /** It answers with success, or it does not: another status, an error, or the time limit. */
  function AfterResponse(s: System, c: Claim, ok: bool): System {
    if !At(s, c, Requested) then s else Goes(s, c, if ok then Accepted else Failing)
  }

  /** The UPDATE to SENT, which may fail. */
  function AfterStore(s: System, c: Claim, ok: bool): System {
    if !At(s, c, Accepted) then s
    else if !ok then Goes(s, c, Failing)
    else if c.id in s.rows && s.rows[c.id].status == SENDING then
      Goes(s, c, Stored).(rows := s.rows[c.id := s.rows[c.id].(status := SENT)])
    else Goes(s, c, Stored)
  }

  /** The UPDATE of the alert, which may fail. */
  function AfterTouch(s: System, c: Claim, ok: bool): System {
    if !At(s, c, Stored) then s else if ok then AfterEnd(s, c) else Goes(s, c, Failing)
  }

  /** markFailure: one transaction, which may fail as a whole. */
  function AfterMarkFailure(s: System, c: Claim, now: int, ok: bool): System {
    if !At(s, c, Failing) then s
    else if !ok then AfterEnd(s, c)
    else
      var exhausted := c.attempt >= s.maxAttempts;
      var next := now + DelaySeconds(c.attempt) * 1000;
      var s1 := if c.id in s.rows && s.rows[c.id].status == SENDING
                then s.(rows := s.rows[c.id := s.rows[c.id].(status := if exhausted then EXHAUSTED else FAILED,
                                                              nextAttemptAt := next)])
                else s;
      AfterEnd(s1, c).(trace := s.trace + if exhausted then [ExhaustedEvent(c.id, c.attempt)] else [])
  }

  /** A new row, as the triggers, manualRetry and escalateOne insert them. */
  function AfterInsert(s: System, id: Id, alertId: Id, now: int): System {
    if id in s.rows || exists o :: o in s.trace && o.id == id then s
    else s.(rows := s.rows[id := Row(alertId, PENDING, 0, now, None)])
  }

  // ---------------------------------------------------------------- the service

  class SecurityAlertDelivery {
    const maxAttempts: nat
    var rows: map<Id, Row>
    var workers: map<Claim, Phase>
    ghost var trace: seq<Observation>

    ghost function Abs(): System
      reads this
    {
      System(maxAttempts, rows, workers, trace)
    }

    constructor (maxAttempts: nat)
      ensures Abs() == System(maxAttempts, map[], map[], [])
    {
      this.maxAttempts := maxAttempts;
      rows, workers, trace := map[], map[], [];
    }

    /** deliver, up to the claim: None when another worker has the row or it is not due. */
    method Deliver(id: Id, now: int) returns (claim: Option<Claim>)
      modifies this
      ensures Abs() == AfterClaim(old(Abs()), id, now)
      ensures claim == if old(Claimable(Abs(), id, now)) then Some(Claim(id, rows[id].attemptCount)) else None
    {
      if id !in rows { return None; }
      var row := rows[id];
      if !(row.status == PENDING || row.status == FAILED) || row.nextAttemptAt > now ||
         row.attemptCount >= maxAttempts {
        return None;
      }
      rows := rows[id := row.(status := SENDING, attemptCount := row.attemptCount + 1, lastAttemptAt := Some(now))];
      var c := Claim(id, row.attemptCount + 1);
      workers := workers[c := Claimed];
      trace := trace + [Attempt(id, c.attempt, now)];
      return Some(c);
    }

    method AlertLoaded(c: Claim, found: bool)
      requires c in workers && workers[c] == Claimed
      modifies this
      ensures Abs() == AfterLoad(old(Abs()), c, found)
    {
      workers := workers[c := if found then Found else Failing];
    }

    method CallWebhook(c: Claim)
      requires c in workers && workers[c] == Found
      modifies this
      ensures Abs() == AfterCall(old(Abs()), c)
    {
      workers := workers[c := Requested];
      trace := trace + [Call(c.id, c.attempt)];
    }

    method WebhookAnswered(c: Claim, ok: bool)
      requires c in workers && workers[c] == Requested
      modifies this
      ensures Abs() == AfterResponse(old(Abs()), c, ok)
    {
      workers := workers[c := if ok then Accepted else Failing];
    }

    method StoreSent(c: Claim, ok: bool)
      requires c in workers && workers[c] == Accepted
      modifies this
      ensures Abs() == AfterStore(old(Abs()), c, ok)
    {
      if !ok { workers := workers[c := Failing]; return; }
      if c.id in rows && rows[c.id].status == SENDING {
        rows := rows[c.id := rows[c.id].(status := SENT)];
      }
      workers := workers[c := Stored];
    }

    method TouchAlert(c: Claim, ok: bool)
      requires c in workers && workers[c] == Stored
      modifies this
      ensures Abs() == AfterTouch(old(Abs()), c, ok)
    {
      if ok { workers := workers - {c}; } else { workers := workers[c := Failing]; }
    }

    method MarkFailure(c: Claim, now: int, ok: bool)
      requires c in workers && workers[c] == Failing
      modifies this
      ensures Abs() == AfterMarkFailure(old(Abs()), c, now, ok)
    {
      if ok {
        var exhausted := c.attempt >= maxAttempts;
        var delaySeconds := DelaySeconds(c.attempt);
        if c.id in rows && rows[c.id].status == SENDING {
          rows := rows[c.id := rows[c.id].(status := if exhausted then EXHAUSTED else FAILED,
                                           nextAttemptAt := now + delaySeconds * 1000)];
        }
        if exhausted { trace := trace + [ExhaustedEvent(c.id, c.attempt)]; }
      }
      workers := workers - {c};
    }
  }
}
