/** Which rows the audit list and the alert list hold: all of them, less those a given filter
    excludes. */
module ListFilters {
  import opened Options
  import opened KeysetPaging
  import Audit = SecurityAuditList
  import Alerts = SecurityAlertList

  predicate Listed(rows: set<Place>, id: nat) { exists p :: p in rows && p.id == id }

  /** An audit event is listed exactly if it agrees with every filter that is given. */
  lemma AuditListed(table: Audit.Table, q: Audit.Query, id: nat)
    requires id in table
    ensures var e := table[id];
            Listed(Audit.Places(table, q), id) <==>
              && (q.action.Some? ==> e.action == q.action.value)
              && (q.severity.Some? ==> e.severity == q.severity.value)
              && (q.resourceType.Some? ==> e.resourceType == q.resourceType.value)
              && (q.resourceId.Some? ==> e.resourceId == q.resourceId.value)
  {
    if Audit.Matches(q, table[id]) { assert Place(0, table[id].createdAt, id) in Audit.Places(table, q); }
  }

  /** An alert likewise; it stands at its severity and the time it was last seen. */
  lemma AlertListed(table: Alerts.Table, q: Alerts.Query, id: nat)
    requires id in table
    ensures var a := table[id];
            && (Listed(Alerts.Places(table, q), id) <==>
                  && (q.status.Some? ==> a.status == q.status.value)
                  && (q.severity.Some? ==> a.severity == q.severity.value)
                  && (q.ruleKey.Some? ==> a.ruleKey == q.ruleKey.value))
            && forall p :: p in Alerts.Places(table, q) && p.id == id ==>
                 p.time == a.lastSeenAt
                 && p.rank == (match a.severity case CRITICAL => 3 case HIGH => 2 case WARNING => 1)
  {
    if Alerts.Matches(q, table[id]) { assert Alerts.PlaceOf(id, table[id]) in Alerts.Places(table, q); }
  }
}
