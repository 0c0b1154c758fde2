/** Over every run of sweeps and operator actions: statuses and levels only go up, every breach
    is recorded and delivered once, and sweeping empties the overdue list. */
module AlertLifecycleLaws {
  import opened Options
  import opened AlertLifecycle

  datatype Event =
    | Create(id: Id, acknowledgeBy: int, resolveBy: int)
    | Deadlines(id: Id, acknowledgeBy: int, resolveBy: int)
    | Transition(operator: Id, id: Id, to: Status, note: Option<string>)
    | Assign(operator: Id, id: Id, assignee: Option<Id>, isOperator: bool)
    | EscalateOne(c: Candidate, now: int)

  /** Creation and deadline changes come from database triggers. A candidate may have been
      selected long before it is escalated, so any candidate may come at any time. */
  function Step(s: System, e: Event): System {
    match e
    case Create(id, ack, res) =>
      if id in s.alerts then s
      else s.(alerts := s.alerts[id := Alert(OPEN, Some(ack), Some(res), 0, None, None, None, None, None)])
    case Deadlines(id, ack, res) =>
      if id !in s.alerts then s
      else s.(alerts := s.alerts[id := s.alerts[id].(acknowledgeBy := Some(ack), resolveBy := Some(res))])
    case Transition(operator, id, to, note) => AfterTransition(s, operator, id, to, note).0
    case Assign(operator, id, assignee, isOperator) => AfterAssign(s, operator, id, assignee, isOperator).0
    case EscalateOne(c, now) => if c.status == RESOLVED then s else AfterEscalate(s, c, now)
  }

  function RunFrom(s: System, events: seq<Event>): System {
    if events == [] then s else Step(RunFrom(s, events[..|events| - 1]), events[|events| - 1])
  }

  function Run(events: seq<Event>): System { RunFrom(System(map[], [], []), events) }

  // ---------------------------------------------------------------- order

  function Rank(st: Status): nat {
    match st case OPEN => 0 case ACKNOWLEDGED => 1 case RESOLVED => 2
  }

  /** A later version of an alert: neither status nor level falls, and the level of a resolved
      alert stays what it was. */
  ghost predicate Ahead(a: Alert, b: Alert) {
    && Rank(a.status) <= Rank(b.status)
    && a.level <= b.level
    && (a.status == RESOLVED ==> b.level == a.level)
  }

  /** From one state to a later one: no alert disappears or goes back. */
  ghost predicate Forward(s: System, t: System) {
    forall id :: id in s.alerts ==> id in t.alerts && Ahead(s.alerts[id], t.alerts[id])
  }

  lemma TransitionForward(s: System, operator: Id, id: Id, to: Status, note: Option<string>, k: Id)
    requires k in s.alerts
    ensures var t := AfterTransition(s, operator, id, to, note).0; k in t.alerts && Ahead(s.alerts[k], t.alerts[k])
  {
  }

  lemma EscalateForward(s: System, c: Candidate, now: int, k: Id)
    requires k in s.alerts && c.status != RESOLVED
    ensures var t := AfterEscalate(s, c, now); k in t.alerts && Ahead(s.alerts[k], t.alerts[k])
  {
  }

  lemma StepForward(s: System, e: Event, k: Id)
    requires k in s.alerts
    ensures k in Step(s, e).alerts && Ahead(s.alerts[k], Step(s, e).alerts[k])
  {
    match e
    case Transition(operator, id, to, note) => TransitionForward(s, operator, id, to, note, k);
    case EscalateOne(c, now) => if c.status != RESOLVED { EscalateForward(s, c, now, k); }
    case _ =>
  }

  lemma {:induction false} AlertForward(s: System, events: seq<Event>, k: Id)
    requires k in s.alerts
    ensures k in RunFrom(s, events).alerts && Ahead(s.alerts[k], RunFrom(s, events).alerts[k])
  {
    if events != [] {
      AlertForward(s, events[..|events| - 1], k);
      StepForward(RunFrom(s, events[..|events| - 1]), events[|events| - 1], k);
    }
  }

  lemma {:induction false} OnlyForward(s: System, events: seq<Event>)
    ensures Forward(s, RunFrom(s, events))
  {
    forall k | k in s.alerts
      ensures k in RunFrom(s, events).alerts && Ahead(s.alerts[k], RunFrom(s, events).alerts[k])
    {
      AlertForward(s, events, k);
    }
  }

  // ---------------------------------------------------------------- breaches

  /** Breach events of the alert at the level. */
  function Breaches(audit: seq<AuditEvent>, id: Id, level: nat): nat {
    if audit == [] then 0
    else
      Breaches(audit[..|audit| - 1], id, level)
      + (var e := audit[|audit| - 1]; if e.Breach? && e.id == id && e.level == level then 1 else 0)
  }

  /** Breach deliveries of the alert at the level. */
  function Deliveries(keys: seq<Key>, id: Id, level: nat): nat {
    if keys == [] then 0
    else
      Deliveries(keys[..|keys| - 1], id, level)
      + (var k := keys[|keys| - 1]; if k.alertId == id && k.level == level then 1 else 0)
  }

  lemma BreachAppend(audit: seq<AuditEvent>, e: AuditEvent, id: Id, level: nat)
    ensures Breaches(audit + [e], id, level)
         == Breaches(audit, id, level) + if e.Breach? && e.id == id && e.level == level then 1 else 0
  {
    assert (audit + [e])[..|audit|] == audit;
  }

  lemma DeliveryAppend(keys: seq<Key>, k: Key, id: Id, level: nat)
    ensures Deliveries(keys + [k], id, level)
         == Deliveries(keys, id, level) + if k.alertId == id && k.level == level then 1 else 0
  {
    assert (keys + [k])[..|keys|] == keys;
  }

  lemma {:induction false} DeliveredIsCounted(keys: seq<Key>, k: Key)
    requires k in keys
    ensures Deliveries(keys, k.alertId, k.level) >= 1
  {
    var n := |keys| - 1;
    if keys[n] != k {
      assert k in keys[..n];
      DeliveredIsCounted(keys[..n], k);
    }
  }

  /** The level says which breaches happened; each was delivered exactly as often. */
  ghost predicate Recorded(s: System, id: Id) {
    var level := if id in s.alerts then s.alerts[id].level else 0;
    && level <= 2
    && (forall l: nat :: Breaches(s.audit, id, l) == Deliveries(s.deliveries, id, l) <= 1)
    && (forall l: nat :: l == 0 || l > level ==> Breaches(s.audit, id, l) == 0)
    && (level > 0 ==> Breaches(s.audit, id, level) == 1)
  }

  lemma EscalatedRecorded(s: System, c: Candidate, now: int, id: Id)
    requires c.status != RESOLVED && Escalates(s, c) && Recorded(s, id) && Recorded(s, c.id)
    ensures Recorded(AfterEscalate(s, c, now), id)
  {
    var b, k, t := Breach(c.id, c.DeliveryReason(), c.TargetLevel()), c.DedupeKey(), AfterEscalate(s, c, now);
    assert Breaches(s.audit, c.id, k.level) == 0;
    if k in s.deliveries { DeliveredIsCounted(s.deliveries, k); }
    forall l: nat
      ensures Breaches(t.audit, id, l) == Breaches(s.audit, id, l) + if id == c.id && l == c.TargetLevel() then 1 else 0
    {
      BreachAppend(s.audit, b, id, l);
    }
    forall l: nat
      ensures Deliveries(t.deliveries, id, l)
           == Deliveries(s.deliveries, id, l) + if id == c.id && l == c.TargetLevel() then 1 else 0
    {
      DeliveryAppend(s.deliveries, k, id, l);
    }
  }

  lemma OtherRecorded(audit: seq<AuditEvent>, a: AuditEvent, id: Id)
    requires !a.Breach?
    ensures forall l: nat :: Breaches(audit + [a], id, l) == Breaches(audit, id, l)
  {
    forall l: nat ensures Breaches(audit + [a], id, l) == Breaches(audit, id, l) {
      BreachAppend(audit, a, id, l);
    }
  }

  lemma StepRecorded(s: System, e: Event)
    requires forall id :: Recorded(s, id)
    ensures forall id :: Recorded(Step(s, e), id)
  {
    var t := Step(s, e);
    if e.EscalateOne? && e.c.status != RESOLVED && Escalates(s, e.c) {
      assert Recorded(s, e.c.id);
      forall id ensures Recorded(t, id) {
        assert Recorded(s, id);
        EscalatedRecorded(s, e.c, e.now, id);
      }
    } else {
      forall id ensures Recorded(t, id) {
        assert Recorded(s, id);
        if t.audit != s.audit {
          var a := t.audit[|s.audit|];
          assert t.audit == s.audit + [a];
          OtherRecorded(s.audit, a, id);
        }
      }
    }
  }

  /** Each alert and level has at most one breach event and exactly as many breach deliveries;
      an alert at a level has the event of that level. */
  lemma {:induction false} BreachedOnce(events: seq<Event>)
    ensures forall id :: Recorded(Run(events), id)
  {
    if events != [] {
      BreachedOnce(events[..|events| - 1]);
      StepRecorded(Run(events[..|events| - 1]), events[|events| - 1]);
    }
  }

  // ---------------------------------------------------------------- sweeping

  ghost function OverdueIds(s: System, now: int): set<Id> {
    set id | id in s.alerts && Overdue(s.alerts[id], now)
  }

  /** A selection the query may return: different overdue alerts, as many as the limit allows. */
  ghost predicate Selected(s: System, now: int, limit: nat, cs: seq<Candidate>) {
    && (forall c :: c in cs ==> c.id in OverdueIds(s, now) && c.status == s.alerts[c.id].status)
    && (forall i, j :: 0 <= i < j < |cs| ==> cs[i].id != cs[j].id)
    && |cs| == if limit <= |OverdueIds(s, now)| then limit else |OverdueIds(s, now)|
  }

  ghost function Ids(cs: seq<Candidate>): set<Id> { set c | c in cs :: c.id }

  lemma IdsAppend(cs: seq<Candidate>, c: Candidate)
    ensures Ids(cs + [c]) == Ids(cs) + {c.id}
  {
    assert forall id :: id in Ids(cs + [c]) ==> id in Ids(cs) || id == c.id;
    assert forall d :: d in cs ==> d in cs + [c];
    assert c in cs + [c];
  }

  lemma NewId(cs: seq<Candidate>, c: Candidate)
    requires forall i :: 0 <= i < |cs| ==> cs[i].id != c.id
    ensures c.id !in Ids(cs)
  {
  }

  /** The overdue list after the alerts have been escalated, one alert untouched or escalated. */
  ghost predicate Taken(s: System, t: System, now: int, ids: set<Id>) {
    && t.alerts.Keys == s.alerts.Keys
    && (forall id :: id in s.alerts && id !in ids ==> t.alerts[id] == s.alerts[id])
    && (forall id :: id in s.alerts && id in ids ==> !Overdue(t.alerts[id], now))
  }

  lemma TakeOne(s: System, mid: System, now: int, ids: set<Id>, c: Candidate)
    requires Taken(s, mid, now, ids) && c.id !in ids
    requires c.id in OverdueIds(s, now) && c.status == s.alerts[c.id].status
    ensures Taken(s, AfterEscalate(mid, c, now), now, ids + {c.id})
  {
    assert mid.alerts[c.id] == s.alerts[c.id];
    assert Escalates(mid, c);
    var t := AfterEscalate(mid, c, now);
    assert t.alerts == mid.alerts[c.id := mid.alerts[c.id].(level := c.TargetLevel(), escalatedAt := Some(now))];
    assert !Overdue(t.alerts[c.id], now);
    assert t.alerts.Keys == mid.alerts.Keys;
  }

  lemma {:induction false} SweepSteps(s: System, now: int, cs: seq<Candidate>)
    requires forall i :: 0 <= i < |cs| ==> cs[i].id in OverdueIds(s, now) && cs[i].status == s.alerts[cs[i].id].status
    requires forall i, j :: 0 <= i < j < |cs| ==> cs[i].id != cs[j].id
    ensures Taken(s, AfterEscalateAll(s, cs, now), now, Ids(cs)) && |Ids(cs)| == |cs|
  {
    if cs == [] {
      assert Ids(cs) == {};
    } else {
      var n := |cs| - 1;
      SweepSteps(s, now, cs[..n]);
      NewId(cs[..n], cs[n]);
      assert cs[..n] + [cs[n]] == cs;
      IdsAppend(cs[..n], cs[n]);
      TakeOne(s, AfterEscalateAll(s, cs[..n], now), now, Ids(cs[..n]), cs[n]);
    }
  }

  /** Escalating selected alerts takes exactly them off the overdue list. */
  lemma {:induction false} SweepTakes(s: System, now: int, limit: nat, cs: seq<Candidate>)
    requires Selected(s, now, limit, cs)
    ensures var t := AfterEscalateAll(s, cs, now);
            && OverdueIds(t, now) == OverdueIds(s, now) - Ids(cs)
            && |OverdueIds(t, now)| == |OverdueIds(s, now)| - |cs|
            && forall id :: id in s.alerts && id !in Ids(cs) ==> id in t.alerts && t.alerts[id] == s.alerts[id]
  {
    SweepSteps(s, now, cs);
    var t := AfterEscalateAll(s, cs, now);
    OverdueAfter(s, t, now, Ids(cs));
    SubsetSize(Ids(cs), OverdueIds(s, now));
  }

  lemma OverdueAfter(s: System, t: System, now: int, ids: set<Id>)
    requires Taken(s, t, now, ids)
    ensures OverdueIds(t, now) == OverdueIds(s, now) - ids
  {
    assert forall id :: id in t.alerts <==> id in t.alerts.Keys;
    assert forall id :: id in s.alerts <==> id in s.alerts.Keys;
  }

  lemma SubsetSize(a: set<Id>, b: set<Id>)
    requires a <= b
    ensures |b - a| == |b| - |a|
  {
  }

  /** Consecutive sweeps at one time, each with its own selection. */
  function Sweeps(s: System, now: int, picks: seq<seq<Candidate>>): System {
    if picks == [] then s else AfterEscalateAll(Sweeps(s, now, picks[..|picks| - 1]), picks[|picks| - 1], now)
  }

  ghost predicate AllSelected(s: System, now: int, limit: nat, picks: seq<seq<Candidate>>) {
    forall n :: 0 <= n < |picks| ==> Selected(Sweeps(s, now, picks[..n]), now, limit, picks[n])
  }

  lemma OneMore(n: nat, limit: nat)
    ensures (n + 1) * limit == n * limit + limit
  {
  }

  /** Whatever the queries select, every sweep takes the limit off the overdue list until it is
      empty: after enough sweeps no alert is overdue. */
  lemma {:induction false} SweepsFinish(s: System, now: int, limit: nat, picks: seq<seq<Candidate>>)
    requires AllSelected(s, now, limit, picks)
    ensures var left := |OverdueIds(s, now)| - |picks| * limit;
            |OverdueIds(Sweeps(s, now, picks), now)| == if left > 0 then left else 0
  {
    if picks != [] {
      var n := |picks| - 1;
      forall k | 0 <= k < n ensures Selected(Sweeps(s, now, picks[..n][..k]), now, limit, picks[..n][k]) {
        assert picks[..n][..k] == picks[..k];
      }
      SweepsFinish(s, now, limit, picks[..n]);
      SweepTakes(Sweeps(s, now, picks[..n]), now, limit, picks[n]);
      OneMore(n, limit);
    }
  }
}
