/** Decisions on master applications (apps/api/src/admin/admin.service.ts:24-28, 104-163) beside
    the applications themselves (apps/api/src/masters/masters.service.ts:59-97). A decision is one
    transaction; an application reads first and writes later, so other steps may come between. */
module Reviews {
  import opened Options

  type Id = string

  datatype Status = PENDING_REVIEW | ACTIVE | REJECTED | NEEDS_INFO

  datatype Decision = APPROVE | REJECT | REQUEST_INFO

  /** unsafeDocuments: those not scanned clean or not disarmed. */
  datatype Profile = Profile(status: Status, rejectionReason: Option<string>, unsafeDocuments: nat)

  datatype Verdict = Verdict(profile: Id, operator: Id, decision: Decision, comment: Option<string>)

  datatype AuditEntry = AuditEntry(operator: Id, action: string, profile: Id, comment: Option<string>)

  datatype Observation = Submitted(profile: Id) | Decided(profile: Id, decision: Decision)

  /** An application that has read the profile and has not written yet. */
  datatype Application = Application(profile: Id, existed: bool)

  datatype System = System(
    profiles: map<Id, Profile>, verdicts: seq<Verdict>, audit: seq<AuditEntry>, applications: multiset<Application>,
    trace: seq<Observation>)

  datatype Answer = BadRequest | NotFound | DocumentsUnsafe | NotUnderReview | Done

  function Target(d: Decision): Status {
    match d case APPROVE => ACTIVE case REJECT => REJECTED case REQUEST_INFO => NEEDS_INFO
  }

  function ActionOf(d: Decision): string {
    match d case APPROVE => "MASTER_APPROVED" case REJECT => "MASTER_REJECTED" case REQUEST_INFO => "MASTER_NEEDS_INFO"
  }

  predicate HasComment(comment: Option<string>) { comment.Some? && comment.value != "" }

  function DecideAnswer(s: System, profile: Id, d: Decision, comment: Option<string>): Answer {
    if !d.APPROVE? && !HasComment(comment) then BadRequest
    else if profile !in s.profiles then NotFound
    else if s.profiles[profile].unsafeDocuments > 0 then DocumentsUnsafe
    else if !s.profiles[profile].status.PENDING_REVIEW? then NotUnderReview
    else Done
  }

  /** decide. */
  function AfterDecide(s: System, operator: Id, profile: Id, d: Decision, comment: Option<string>): System {
    if !DecideAnswer(s, profile, d, comment).Done? then s
    else
      s.(profiles := s.profiles[profile := s.profiles[profile].(
                                  status := Target(d), rejectionReason := if d.REJECT? then comment else None)],
         verdicts := s.verdicts + [Verdict(profile, operator, d, comment)],
         audit := s.audit + [AuditEntry(operator, ActionOf(d), profile, comment)],
         trace := s.trace + [Decided(profile, d)])
  }

  /** submitApplication reads the profile. */
  function AfterApply(s: System, profile: Id): System {
    if profile in s.profiles && s.profiles[profile].status in {PENDING_REVIEW, ACTIVE} then s
    else s.(applications := s.applications + multiset{Application(profile, profile in s.profiles)})
  }

  /** submitApplication writes it; creating a profile twice violates a unique key. */
  function AfterApplied(s: System, a: Application): System {
    if a !in s.applications then s
    else
      var s1 := s.(applications := s.applications - multiset{a});
      if !a.existed && a.profile in s.profiles then s1
      else if a.existed && a.profile !in s.profiles then s1
      else
        var unsafe := if a.existed then s.profiles[a.profile].unsafeDocuments else 0;
        s1.(profiles := s.profiles[a.profile := Profile(PENDING_REVIEW, None, unsafe)],
            trace := s.trace + [Submitted(a.profile)])
  }

  class AdminService {
    var profiles: map<Id, Profile>
    var verdicts: seq<Verdict>
    var audit: seq<AuditEntry>
    var applications: multiset<Application>
    ghost var trace: seq<Observation>

    ghost function Abs(): System
      reads this
    {
      System(profiles, verdicts, audit, applications, trace)
    }

    constructor ()
      ensures Abs() == EMPTY
    {
      profiles, verdicts, audit, applications, trace := map[], [], [], multiset{}, [];
    }

    method Decide(operator: Id, profile: Id, d: Decision, comment: Option<string>) returns (r: Answer)
      modifies this
      ensures Abs() == AfterDecide(old(Abs()), operator, profile, d, comment)
      ensures r == DecideAnswer(old(Abs()), profile, d, comment)
    {
      if !d.APPROVE? && !HasComment(comment) { return BadRequest; }
      if profile !in profiles { return NotFound; }
      if profiles[profile].unsafeDocuments > 0 { return DocumentsUnsafe; }
      if !profiles[profile].status.PENDING_REVIEW? { return NotUnderReview; }
      profiles := profiles[profile := profiles[profile].(
                             status := Target(d), rejectionReason := if d.REJECT? then comment else None)];
      verdicts := verdicts + [Verdict(profile, operator, d, comment)];
      audit := audit + [AuditEntry(operator, ActionOf(d), profile, comment)];
      trace := trace + [Decided(profile, d)];
      return Done;
    }
  }

  // ---------------------------------------------------------------- runs

  datatype Event =
    | Decide(operator: Id, profile: Id, decision: Decision, comment: Option<string>)
    | Apply(profile: Id)
    | Applied(application: Application)
    | Scanned(profile: Id, unsafeDocuments: nat)

  function Step(s: System, e: Event): System {
    match e
    case Decide(operator, profile, d, comment) => AfterDecide(s, operator, profile, d, comment)
    case Apply(profile) => AfterApply(s, profile)
    case Applied(a) => AfterApplied(s, a)
    case Scanned(profile, n) =>
      if profile in s.profiles then
        s.(profiles := s.profiles[profile := s.profiles[profile].(unsafeDocuments := n)])
      else s
  }

  function RunFrom(s: System, events: seq<Event>): System {
    if events == [] then s else Step(RunFrom(s, events[..|events| - 1]), events[|events| - 1])
  }

  const EMPTY := System(map[], [], [], multiset{}, [])

  function Run(events: seq<Event>): System { RunFrom(EMPTY, events) }

  // ---------------------------------------------------------------- one decision a round

  /** What the last submission or decision of the profile made of it. */
  function LastStatus(trace: seq<Observation>, profile: Id): Option<Status> {
    if trace == [] then None
    else
      var o := trace[|trace| - 1];
      if o.profile != profile then LastStatus(trace[..|trace| - 1], profile)
      else Some(if o.Submitted? then PENDING_REVIEW else Target(o.decision))
  }

  lemma LastAppended(trace: seq<Observation>, o: Observation, profile: Id)
    ensures LastStatus(trace + [o], profile)
         == if o.profile != profile then LastStatus(trace, profile)
            else Some(if o.Submitted? then PENDING_REVIEW else Target(o.decision))
  {
    assert (trace + [o])[..|trace|] == trace;
  }

  ghost predicate SubmittedBetween(trace: seq<Observation>, i: int, j: int, profile: Id)
    requires 0 <= i < j <= |trace|
  {
    exists k :: i < k < j && trace[k] == Submitted(profile)
  }

  ghost predicate OneDecisionARound(trace: seq<Observation>) {
    forall i, j ::
      0 <= i < j < |trace| && trace[i].Decided? && trace[j].Decided? && trace[i].profile == trace[j].profile ==>
      SubmittedBetween(trace, i, j, trace[i].profile)
  }

  /** A profile under review has been submitted since any decision on it. */
  lemma {:induction false} UnderReviewIsNew(trace: seq<Observation>, profile: Id, i: int)
    requires LastStatus(trace, profile) == Some(PENDING_REVIEW)
    requires 0 <= i < |trace| && trace[i].Decided? && trace[i].profile == profile
    ensures SubmittedBetween(trace, i, |trace|, profile)
  {
    var n := |trace| - 1;
    if trace[n].profile == profile {
      assert trace[n] == Submitted(profile);
    } else {
      UnderReviewIsNew(trace[..n], profile, i);
      var k :| i < k < n && trace[..n][k] == Submitted(profile);
      assert trace[k] == Submitted(profile);
    }
  }

  lemma BetweenKept(trace: seq<Observation>, o: Observation, i: int, j: int, profile: Id)
    requires 0 <= i < j <= |trace| && SubmittedBetween(trace, i, j, profile)
    ensures SubmittedBetween(trace + [o], i, j, profile)
  {
    var k :| i < k < j && trace[k] == Submitted(profile);
    assert (trace + [o])[k] == Submitted(profile);
  }

  /** Verdicts and audit entries are the decisions, in order. */
  ghost predicate Recorded(s: System) {
    |s.verdicts| == |s.audit| && Decisions(s.trace) == seq(|s.verdicts|, n requires 0 <= n < |s.verdicts| =>
      Decided(s.verdicts[n].profile, s.verdicts[n].decision))
    && forall n :: 0 <= n < |s.audit| ==>
         s.audit[n] == AuditEntry(s.verdicts[n].operator, ActionOf(s.verdicts[n].decision), s.verdicts[n].profile,
                                  s.verdicts[n].comment)
  }

  function Decisions(trace: seq<Observation>): seq<Observation> {
    if trace == [] then []
    else Decisions(trace[..|trace| - 1]) + if trace[|trace| - 1].Decided? then [trace[|trace| - 1]] else []
  }

  lemma DecisionsAppended(trace: seq<Observation>, o: Observation)
    ensures Decisions(trace + [o]) == Decisions(trace) + if o.Decided? then [o] else []
  {
    assert (trace + [o])[..|trace|] == trace;
  }

  ghost predicate StatusIsLast(s: System) {
    forall id :: (if id in s.profiles then Some(s.profiles[id].status) else None) == LastStatus(s.trace, id)
  }

  ghost predicate Inv(s: System) { OneDecisionARound(s.trace) && StatusIsLast(s) && Recorded(s) }

  lemma RoundKept(trace: seq<Observation>, o: Observation)
    requires OneDecisionARound(trace)
    requires o.Decided? ==> LastStatus(trace, o.profile) == Some(PENDING_REVIEW)
    ensures OneDecisionARound(trace + [o])
  {
    var after := trace + [o];
    forall i, j | 0 <= i < j < |after| && after[i].Decided? && after[j].Decided? && after[i].profile == after[j].profile
      ensures SubmittedBetween(after, i, j, after[i].profile)
    {
      if j == |trace| { UnderReviewIsNew(trace, o.profile, i); }
      BetweenKept(trace, o, i, j, after[i].profile);
    }
  }

  lemma DecideKeeps(s: System, operator: Id, profile: Id, d: Decision, comment: Option<string>)
    requires Inv(s)
    ensures Inv(AfterDecide(s, operator, profile, d, comment))
  {
    if DecideAnswer(s, profile, d, comment).Done? {
      var t, o := AfterDecide(s, operator, profile, d, comment), Decided(profile, d);
      RoundKept(s.trace, o);
      DecisionsAppended(s.trace, o);
      forall id
        ensures LastStatus(t.trace, id) == if id == profile then Some(Target(d)) else LastStatus(s.trace, id) {
        LastAppended(s.trace, o, id);
      }
    }
  }

  lemma SubmittedKeeps(s: System, t: System, profile: Id)
    requires Inv(s) && t.trace == s.trace + [Submitted(profile)] && t.verdicts == s.verdicts && t.audit == s.audit
    requires profile in t.profiles && t.profiles[profile].status == PENDING_REVIEW
    requires t.profiles == s.profiles[profile := t.profiles[profile]]
    ensures Inv(t)
  {
    var o := Submitted(profile);
    RoundKept(s.trace, o);
    DecisionsAppended(s.trace, o);
    forall id
      ensures LastStatus(t.trace, id) == if id == profile then Some(PENDING_REVIEW) else LastStatus(s.trace, id) {
      LastAppended(s.trace, o, id);
    }
  }

  lemma AppliedKeeps(s: System, a: Application)
    requires Inv(s)
    ensures Inv(AfterApplied(s, a))
  {
    if a in s.applications && (a.existed <==> a.profile in s.profiles) {
      hide Inv;
      SubmittedKeeps(s, AfterApplied(s, a), a.profile);
    }
  }

  lemma {:induction false} RunKeeps(events: seq<Event>)
    ensures Inv(Run(events))
  {
    if events != [] {
      var s := Run(events[..|events| - 1]);
      RunKeeps(events[..|events| - 1]);
      match events[|events| - 1]
      case Decide(operator, profile, d, comment) => DecideKeeps(s, operator, profile, d, comment);
      case Applied(a) => AppliedKeeps(s, a);
      case _ =>
    }
  }

  /** Of any two decisions on a profile the later one followed a new submission; the status is
      what the last submission or decision made it, and each decision has its verdict and its
      audit entry. */
  lemma {:induction false} OneDecisionPerRound(events: seq<Event>)
    ensures var s := Run(events); OneDecisionARound(s.trace) && StatusIsLast(s) && Recorded(s)
  {
    RunKeeps(events);
  }

  /** Decisions on the profile. */
  function DecidedCount(trace: seq<Observation>, profile: Id): nat {
    if trace == [] then 0
    else
      var o := trace[|trace| - 1];
      DecidedCount(trace[..|trace| - 1], profile) + if o.Decided? && o.profile == profile then 1 else 0
  }

  lemma CountAppended(trace: seq<Observation>, o: Observation, profile: Id)
    ensures DecidedCount(trace + [o], profile)
         == DecidedCount(trace, profile) + if o.Decided? && o.profile == profile then 1 else 0
  {
    assert (trace + [o])[..|trace|] == trace;
  }

  lemma DecidedStep(s: System, e: Event, profile: Id)
    requires profile in s.profiles && s.profiles[profile].status != PENDING_REVIEW
    requires !(e.Applied? && e.application.profile == profile)
    ensures var t := Step(s, e);
            && profile in t.profiles && t.profiles[profile].status == s.profiles[profile].status
            && DecidedCount(t.trace, profile) == DecidedCount(s.trace, profile)
  {
    match e
    case Decide(_, other, d, _) => CountAppended(s.trace, Decided(other, d), profile);
    case Applied(a) => CountAppended(s.trace, Submitted(a.profile), profile);
    case _ =>
  }

  /** Once a read shows a profile not under review, no decision on it is committed and its status
      stays, until an application for it is written: a client that saw this may let go of its
      own request. */
  lemma {:induction false} DecidedStays(s: System, later: seq<Event>, profile: Id)
    requires profile in s.profiles && s.profiles[profile].status != PENDING_REVIEW
    requires forall e :: e in later ==> !(e.Applied? && e.application.profile == profile)
    ensures var t := RunFrom(s, later);
            && profile in t.profiles && t.profiles[profile].status == s.profiles[profile].status
            && DecidedCount(t.trace, profile) == DecidedCount(s.trace, profile)
  {
    if later != [] {
      var n := |later| - 1;
      DecidedStays(s, later[..n], profile);
      DecidedStep(RunFrom(s, later[..n]), later[n], profile);
    }
  }

  // ---------------------------------------------------------------- a late application

  lemma RunSnoc(events: seq<Event>, e: Event)
    ensures Run(events + [e]) == Step(Run(events), e)
  {
    assert (events + [e])[..|events|] == events;
  }

  predicate IsActive(s: System, p: Id) { p in s.profiles && s.profiles[p].status == ACTIVE }

  lemma ActiveStep(s: System, e: Event, p: Id)
    requires IsActive(s, p) && Application(p, true) !in s.applications
    ensures IsActive(Step(s, e), p) && Application(p, true) !in Step(s, e).applications
  {
  }

  lemma {:induction false} ActiveStays(s: System, later: seq<Event>, p: Id)
    requires IsActive(s, p) && Application(p, true) !in s.applications
    ensures IsActive(RunFrom(s, later), p) && Application(p, true) !in RunFrom(s, later).applications
  {
    if later != [] {
      ActiveStays(s, later[..|later| - 1], p);
      ActiveStep(RunFrom(s, later[..|later| - 1]), later[|later| - 1], p);
    }
  }

  lemma LateApplication(s: System, p: Id)
    requires IsActive(s, p) && Application(p, true) in s.applications
    ensures !IsActive(RunFrom(s, [Applied(Application(p, true))]), p)
  {
    assert [Applied(Application(p, true))][..0] == [];
    assert RunFrom(s, []) == s;
  }

  /** An active profile stays active, whatever happens later, if and only if no application that
      read it is still to be written. */
  lemma {:induction false} ApprovalHoldsIff(s: System, p: Id)
    requires IsActive(s, p)
    ensures (forall later: seq<Event> :: IsActive(RunFrom(s, later), p)) <==> Application(p, true) !in s.applications
  {
    if Application(p, true) in s.applications {
      LateApplication(s, p);
    } else {
      forall later: seq<Event> ensures IsActive(RunFrom(s, later), p) { ActiveStays(s, later, p); }
    }
  }

  // Such a run exists.

  /** The first application is written and sent back for information. */
  lemma SentBack(p: Id, operator: Id) returns (events: seq<Event>)
    ensures Run(events).profiles == map[p := Profile(NEEDS_INFO, None, 0)] && Run(events).applications == multiset{}
  {
    var e1, e2, e3 := Apply(p), Applied(Application(p, false)), Decide(operator, p, REQUEST_INFO, Some("c"));
    events := [e1, e2, e3];
    FirstApplied(p);
    ThreeSteps(EMPTY, e1, e2, e3);
  }

  lemma FirstApplied(p: Id)
    ensures var s := Step(Step(EMPTY, Apply(p)), Applied(Application(p, false)));
            s.profiles == map[p := Profile(PENDING_REVIEW, None, 0)] && s.applications == multiset{}
  {
    assert Step(EMPTY, Apply(p)).applications == multiset{Application(p, false)};
  }

  lemma ThreeSteps(s: System, e1: Event, e2: Event, e3: Event)
    ensures RunFrom(s, [e1, e2, e3]) == Step(Step(Step(s, e1), e2), e3)
  {
    assert [e1, e2, e3][..2] == [e1, e2] && [e1, e2][..1] == [e1] && [e1][..0] == [];
    assert RunFrom(s, []) == s;
    assert RunFrom(s, [e1]) == Step(s, e1);
    assert RunFrom(s, [e1, e2]) == Step(Step(s, e1), e2);
  }

  lemma ApplyReads(s: System, p: Id)
    requires p in s.profiles && s.profiles[p].status == NEEDS_INFO
    ensures Step(s, Apply(p)) == s.(applications := s.applications + multiset{Application(p, true)})
  {
  }

  lemma AppliedWrites(s: System, p: Id)
    requires p in s.profiles && Application(p, true) in s.applications
    ensures var t := Step(s, Applied(Application(p, true)));
            && t.profiles == s.profiles[p := Profile(PENDING_REVIEW, None, s.profiles[p].unsafeDocuments)]
            && t.applications == s.applications - multiset{Application(p, true)}
  {
  }

  /** Two applications read the profile, the first is written. */
  lemma AppliedTwice(s: System, p: Id)
    requires s.profiles == map[p := Profile(NEEDS_INFO, None, 0)] && s.applications == multiset{}
    ensures var t := Step(Step(Step(s, Apply(p)), Apply(p)), Applied(Application(p, true)));
            t.profiles == map[p := Profile(PENDING_REVIEW, None, 0)] && t.applications == multiset{Application(p, true)}
  {
    ApplyReads(s, p);
    ApplyReads(Step(s, Apply(p)), p);
    AppliedWrites(Step(Step(s, Apply(p)), Apply(p)), p);
    hide Step;
  }

  lemma RunThree(events: seq<Event>, e1: Event, e2: Event, e3: Event)
    ensures Run(events + [e1] + [e2] + [e3]) == Step(Step(Step(Run(events), e1), e2), e3)
  {
    RunSnoc(events, e1);
    RunSnoc(events + [e1], e2);
    RunSnoc(events + [e1] + [e2], e3);
  }

  /** A run in which it is not so: when the first of two applications is written and approved, the
      second one puts the active master back under review. */
  lemma ApprovedIsReopened(p: Id, operator: Id) returns (events: seq<Event>)
    ensures IsActive(Run(events), p) && Application(p, true) in Run(events).applications
    ensures var t := Run(events + [Applied(Application(p, true))]);
            p in t.profiles && t.profiles[p].status == PENDING_REVIEW
  {
    var a, approve := Applied(Application(p, true)), Decide(operator, p, APPROVE, None);
    events := SentBack(p, operator);
    RunThree(events, Apply(p), Apply(p), a);
    AppliedTwice(Run(events), p);
    events := events + [Apply(p)] + [Apply(p)] + [a];
    hide Run, RunFrom;
    RunSnoc(events, approve);
    events := events + [approve];
    RunSnoc(events, a);
  }
}
