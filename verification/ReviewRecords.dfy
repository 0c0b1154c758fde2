/** What each decision does to a profile and how each call is answered, spelled out. */
module ReviewRecords {
  import opened Options
  import opened Reviews

  /** The last submission of or decision on the profile. */
  function Last(trace: seq<Observation>, id: Id): Option<Observation> {
    if trace == [] then None
    else
      var o := trace[|trace| - 1];
      if o.profile == id then Some(o) else Last(trace[..|trace| - 1], id)
  }

  /** The comment of the last audited decision on the profile. */
  function LastComment(audit: seq<AuditEntry>, id: Id): Option<string> {
    if audit == [] then None
    else
      var a := audit[|audit| - 1];
      if a.profile == id then a.comment else LastComment(audit[..|audit| - 1], id)
  }

  /** Under review from submission to decision; approved is active, rejected shows the reason given,
      and a request for information shows none. */
  ghost predicate Shows(s: System, id: Id) {
    match Last(s.trace, id)
    case None => id !in s.profiles
    case Some(o) =>
      && id in s.profiles
      && var p := s.profiles[id];
         match o
         case Submitted(_) => p.status == PENDING_REVIEW && p.rejectionReason == None
         case Decided(_, d) =>
           && (d == APPROVE ==> p.status == ACTIVE && p.rejectionReason == None)
           && (d == REJECT ==> p.status == REJECTED && p.rejectionReason == LastComment(s.audit, id)
                               && p.rejectionReason.Some? && p.rejectionReason.value != "")
           && (d == REQUEST_INFO ==> p.status == NEEDS_INFO && p.rejectionReason == None)
  }

  /** The audit entry names the decision; only an approval may do without a comment. */
  ghost predicate Audited(s: System) {
    && |s.audit| == |s.verdicts|
    && forall n :: 0 <= n < |s.verdicts| ==>
         var v, a := s.verdicts[n], s.audit[n];
         && a.operator == v.operator && a.profile == v.profile && a.comment == v.comment
         && (a.action == "MASTER_APPROVED" <==> v.decision == APPROVE)
         && (a.action == "MASTER_REJECTED" <==> v.decision == REJECT)
         && (a.action == "MASTER_NEEDS_INFO" <==> v.decision == REQUEST_INFO)
         && (v.decision != APPROVE ==> v.comment.Some? && v.comment.value != "")
  }

  lemma TraceAppended(trace: seq<Observation>, o: Observation, id: Id)
    ensures Last(trace + [o], id) == if o.profile == id then Some(o) else Last(trace, id)
  {
    assert (trace + [o])[..|trace|] == trace;
  }

  lemma AuditAppended(audit: seq<AuditEntry>, a: AuditEntry, id: Id)
    ensures LastComment(audit + [a], id) == if a.profile == id then a.comment else LastComment(audit, id)
  {
    assert (audit + [a])[..|audit|] == audit;
  }

  lemma StepShows(s: System, e: Event, id: Id)
    requires Shows(s, id)
    ensures Shows(Step(s, e), id)
  {
    hide Last, LastComment;
    match e
    case Decide(operator, profile, d, comment) =>
      TraceAppended(s.trace, Decided(profile, d), id);
      AuditAppended(s.audit, AuditEntry(operator, ActionOf(d), profile, comment), id);
    case Applied(a) => TraceAppended(s.trace, Submitted(a.profile), id);
    case _ =>
  }

  lemma ActionsDiffer()
    ensures "MASTER_APPROVED" != "MASTER_REJECTED" && "MASTER_REJECTED" != "MASTER_NEEDS_INFO"
    ensures "MASTER_NEEDS_INFO" != "MASTER_APPROVED"
  {
    assert "MASTER_APPROVED"[7] == 'A' && "MASTER_REJECTED"[7] == 'R' && "MASTER_NEEDS_INFO"[7] == 'N';
  }

  lemma StepAudited(s: System, e: Event)
    requires Audited(s)
    ensures Audited(Step(s, e))
  {
    ActionsDiffer();
  }

  /** In every run each profile shows its last submission or decision, and each decision is audited
      under its own name. */
  lemma {:induction false} ProfilesShowDecisions(events: seq<Event>)
    ensures (forall id :: Shows(Run(events), id)) && Audited(Run(events))
  {
    hide Step, Shows, Audited;
    if events == [] {
      NothingShown();
    } else {
      var s := Run(events[..|events| - 1]);
      ProfilesShowDecisions(events[..|events| - 1]);
      StepAudited(s, events[|events| - 1]);
      forall id ensures Shows(Run(events), id) { StepShows(s, events[|events| - 1], id); }
    }
  }

  lemma NothingShown()
    ensures (forall id :: Shows(Run([]), id)) && Audited(Run([]))
  {
  }

  /** A decision is done exactly if the profile is known and under review, its documents are safe, and
      anything but an approval has a comment; then one decision is recorded. Otherwise nothing
      changes, and the first of these that fails is the answer. */
  lemma DecisionAnswered(s: System, operator: Id, profile: Id, d: Decision, comment: Option<string>)
    ensures var t, r := AfterDecide(s, operator, profile, d, comment), DecideAnswer(s, profile, d, comment);
            var commented := d == APPROVE || (comment.Some? && comment.value != "");
            && (r == BadRequest <==> !commented)
            && (r == NotFound <==> commented && profile !in s.profiles)
            && (r == DocumentsUnsafe <==> commented && profile in s.profiles && s.profiles[profile].unsafeDocuments > 0)
            && (r == Done <==> commented && profile in s.profiles && s.profiles[profile].unsafeDocuments == 0
                               && s.profiles[profile].status == PENDING_REVIEW)
            && (r == Done ==> t.trace == s.trace + [Decided(profile, d)]
                              && t.verdicts == s.verdicts + [Verdict(profile, operator, d, comment)])
            && (r != Done ==> t == s)
            && forall id :: id != profile ==>
                 (id in t.profiles <==> id in s.profiles) && (id in s.profiles ==> t.profiles[id] == s.profiles[id])
  {
  }
}
