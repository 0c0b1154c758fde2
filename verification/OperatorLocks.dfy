/** Writes with an unknown outcome in the operator application: assigning a master
    (apps/operator/lib/useOperatorAssignment.ts with operator-order-recovery.ts), deciding an
    application (operator-verification-controller.ts) and resolving a dispute
    (operator-dispute-controller.ts).

    The three hooks share one protocol: persist a marker before the POST, keep the target
    locked while the outcome is unknown, and unlock only after a read. They differ in how they
    look for an old marker before sending, and in how they restore markers; those differences
    are kept. Everything happens within one signed-in session of one tab. Storage calls may
    throw: each is a parameter of the step that makes it. */
module OperatorLocks {
  import opened Options

  datatype Hook = Assignment | Verification | Dispute

  type Target = string

  /** In-memory lock. The serial number stands for object identity. */
  datatype Record = Record(serial: nat, pending: bool, checking: bool, error: bool, rejected: bool)

  /** What session storage holds for a locked target. */
  datatype Marker = OutcomeUnknown | OutcomeRejected

  datatype Post = Post(target: Target, serial: nat)
  datatype Read = Read(id: nat, target: Target, serial: nat)

  /** What an outside observer of the tab's traffic sees. */
  datatype Observation =
    | Sent(target: Target, serial: nat)
    | Refused(target: Target, serial: nat)
    | ReadIssued(target: Target, id: nat)
    | ReadShown(target: Target, id: nat, terminal: bool)

  /** An API answer to a POST. Refusal: 400, 401, 403, 404 or 409. */
  datatype Answer = Success | Refusal | Ambiguous

  /** blocked is storageUnavailable in the assignment hook and recoveryFailed in the dispute
      hook. posts and checks are the requests still in flight. */
  datatype Tab = Tab(
    hook: Hook,
    records: map<Target, Record>, busy: bool, blocked: bool, selected: Option<Target>,
    storage: map<Target, Marker>,
    nextSerial: nat, nextRead: nat, posts: set<Post>, checks: set<Read>,
    trace: seq<Observation>)

  /** Faults of session storage during one step: the scan or getItem throws as a whole, getItem
      throws for single keys of a scan, setItem or removeItem throws. */
  datatype Faults = Faults(read: bool, hidden: set<Target>, write: bool)

  function Restored(serial: nat, marker: Marker): Record {
    Record(serial, false, false, false, marker == OutcomeRejected)
  }

  // ---------------------------------------------------------------- the steps

  /** A reload or remount: a new hook instance. Only the assignment hook scans all markers; a
      key whose getItem throws is passed over like an unrelated key. */
  function AfterReload(s: Tab, f: Faults): Tab {
    var found := s.hook.Assignment? && !f.read;
    s.(records := map t | t in s.storage && found && t !in f.hidden :: Restored(s.nextSerial, s.storage[t]),
       busy := false,
       blocked := s.hook.Assignment? && f.read,
       selected := None,
       nextSerial := s.nextSerial + 1)
  }

  /** Another target is selected: the other two hooks look up its marker. */
  function AfterSelect(s: Tab, t: Target, f: Faults): Tab {
    if s.hook.Assignment? then s.(selected := Some(t))
    else
      var s1 := s.(selected := Some(t), blocked := s.hook.Dispute? && f.read);
      if !f.read && t in s.storage && t !in s.records then AfterRecover(s1, t) else s1
  }

  /** A stored marker becomes an in-memory lock. */
  function AfterRecover(s: Tab, t: Target): Tab
    requires t in s.storage
  {
    s.(records := s.records[t := Restored(s.nextSerial, s.storage[t])], nextSerial := s.nextSerial + 1)
  }

  /** The marker is stored, the lock taken and the POST dispatched. */
  function AfterSend(s: Tab, t: Target): Tab {
    s.(storage := s.storage[t := OutcomeUnknown],
       busy := true,
       records := s.records[t := Record(s.nextSerial, true, false, false, false)],
       posts := s.posts + {Post(t, s.nextSerial)},
       trace := s.trace + [Sent(t, s.nextSerial)],
       nextSerial := s.nextSerial + 1)
  }

  /** assign or submit. allowed: every other guard of the caller's render holds. */
  function AfterSubmit(s: Tab, t: Target, allowed: bool, f: Faults): Tab {
    if !allowed || s.busy || t in s.records then s
    else match s.hook
      case Assignment =>
        if f.read then s.(blocked := true)
        else if t in s.storage && t !in f.hidden then AfterRecover(s, t)
        else if f.write then s.(blocked := true)
        else AfterSend(s, t)
      case Verification =>
        if s.selected != Some(t) || f.read then s
        else if t in s.storage then AfterRecover(s, t)
        else if f.write then s
        else AfterSend(s, t)
      case Dispute =>
        if s.selected != Some(t) || s.blocked || f.write then s else AfterSend(s, t)
  }

  /** The answer to a POST arrives. Only the lock it belongs to, if still there, is touched. */
  function AfterAnswer(s: Tab, p: Post, a: Answer, f: Faults): Tab {
    if p !in s.posts then s
    else
      var s1 := s.(posts := s.posts - {p},
                   trace := s.trace + if a.Refusal? then [Refused(p.target, p.serial)] else []);
      if p.target !in s.records || s.records[p.target].serial != p.serial then s1
      else
        var r := s.records[p.target];
        var r1 := match a
          case Success => r.(pending := false)
          case Refusal => r.(pending := false, rejected := true, error := s.hook.Dispute?)
          case Ambiguous => r.(pending := false, error := true);
        var saves := !f.write && (a.Refusal? || (a.Ambiguous? && s.hook.Dispute?));
        var s2 := s1.(
          records := s.records[p.target := r1],
          busy := false,
          blocked := s.blocked || (s.hook.Assignment? && a.Refusal? && f.write),
          storage := if saves then s.storage[p.target := if a.Refusal? then OutcomeRejected else OutcomeUnknown]
                     else s.storage);
        if a.Success? then AfterReconcile(s2, p.target) else s2
  }

  /** reconcile: a fresh read of a locked target. */
  function AfterReconcile(s: Tab, t: Target): Tab {
    if t !in s.records || s.records[t].pending || s.records[t].checking then s
    else
      s.(records := s.records[t := s.records[t].(checking := true, error := false)],
         checks := s.checks + {Read(s.nextRead, t, s.records[t].serial)},
         trace := s.trace + [ReadIssued(t, s.nextRead)],
         nextRead := s.nextRead + 1)
  }

  /** A read answers. terminal: canAssign is false, the status is not PENDING_REVIEW, or the
      dispute is RESOLVED. */
  function AfterRead(s: Tab, d: Read, ok: bool, terminal: bool, f: Faults): Tab {
    if d !in s.checks then s
    else
      var s1 := s.(checks := s.checks - {d},
                   trace := s.trace + if ok then [ReadShown(d.target, d.id, terminal)] else []);
      if d.target !in s.records || s.records[d.target].serial != d.serial then s1
      else
        var r := s.records[d.target];
        if !ok then s1.(records := s.records[d.target := r.(checking := false, error := true)])
        else if !terminal && !r.rejected then s1.(records := s.records[d.target := r.(checking := false)])
        else if f.write then s1.(records := s.records[d.target := r.(checking := false, error := true)])
        else s1.(records := s.records - {d.target}, storage := s.storage - {d.target})
  }

  /** Typing in the dispute form stores a draft without a marker. */
  function AfterEdit(s: Tab, f: Faults): Tab {
    if !s.hook.Dispute? || s.selected.None? || s.blocked || s.selected.value in s.records || f.write then s
    else s.(storage := s.storage - {s.selected.value})
  }

  // ---------------------------------------------------------------- the hooks as they run

  class OperatorWrites {
    const hook: Hook
    var records: map<Target, Record>
    var busy: bool
    var blocked: bool
    var selected: Option<Target>
    var storage: map<Target, Marker>
    var nextSerial: nat
    var nextRead: nat
    ghost var posts: set<Post>
    ghost var checks: set<Read>
    ghost var trace: seq<Observation>

    ghost function Abs(): Tab
      reads this
    {
      Tab(hook, records, busy, blocked, selected, storage, nextSerial, nextRead, posts, checks, trace)
    }

    constructor (hook: Hook)
      ensures Abs() == Start(hook)
    {
      this.hook := hook;
      records, busy, blocked, selected, storage := map[], false, false, None, map[];
      nextSerial, nextRead, posts, checks, trace := 0, 0, {}, {}, [];
    }

    /** The layout effect of a new instance. */
    method Reload(f: Faults)
      modifies this
      ensures Abs() == AfterReload(old(Abs()), f)
    {
      records, busy, blocked, selected := map[], false, false, None;
      if hook.Assignment? {
        if f.read {
          blocked := true;
        } else {
          records := map t | t in storage && t !in f.hidden :: Restored(nextSerial, storage[t]);
        }
      }
      nextSerial := nextSerial + 1;
    }

    /** The context effect of the verification and dispute hooks. */
    method Select(t: Target, f: Faults)
      modifies this
      ensures Abs() == AfterSelect(old(Abs()), t, f)
    {
      selected := Some(t);
      if hook.Assignment? { return; }
      if hook.Dispute? { blocked := f.read; } else { blocked := false; }
      if !f.read && t in storage && t !in records { Recover(t); }
    }

    method Recover(t: Target)
      requires t in storage
      modifies this
      ensures Abs() == AfterRecover(old(Abs()), t)
    {
      records := records[t := Restored(nextSerial, storage[t])];
      nextSerial := nextSerial + 1;
    }

    method Send(t: Target)
      modifies this
      ensures Abs() == AfterSend(old(Abs()), t)
    {
      storage := storage[t := OutcomeUnknown];
      busy := true;
      records := records[t := Record(nextSerial, true, false, false, false)];
      posts := posts + {Post(t, nextSerial)};
      trace := trace + [Sent(t, nextSerial)];
      nextSerial := nextSerial + 1;
    }

    /** assign */
    method Assign(t: Target, allowed: bool, f: Faults)
      requires hook.Assignment?
      modifies this
      ensures Abs() == AfterSubmit(old(Abs()), t, allowed, f)
    {
      if !allowed || busy || t in records { return; }
      if f.read { blocked := true; return; }
      if t in storage && t !in f.hidden { Recover(t); return; }
      if f.write { blocked := true; return; }
      Send(t);
    }

    /** submit of the verification hook */
    method Decide(t: Target, allowed: bool, f: Faults)
      requires hook.Verification?
      modifies this
      ensures Abs() == AfterSubmit(old(Abs()), t, allowed, f)
    {
      if !allowed || selected != Some(t) || busy || t in records { return; }
      if f.read { return; }
      if t in storage { Recover(t); return; }
      if f.write { return; }
      Send(t);
    }

    /** submit of the dispute hook */
    method Resolve(t: Target, allowed: bool, f: Faults)
      requires hook.Dispute?
      modifies this
      ensures Abs() == AfterSubmit(old(Abs()), t, allowed, f)
    {
      if !allowed || selected != Some(t) || blocked || busy || t in records { return; }
      if f.write { return; }
      Send(t);
    }

    /** The part of assign or submit after the POST. */
    method Answered(p: Post, a: Answer, f: Faults)
      requires p in posts
      modifies this
      ensures Abs() == AfterAnswer(old(Abs()), p, a, f)
    {
      posts := posts - {p};
      trace := trace + if a.Refusal? then [Refused(p.target, p.serial)] else [];
      if p.target !in records || records[p.target].serial != p.serial { return; }
      var record := records[p.target];
      match a {
        case Success =>
        case Refusal =>
          record := record.(rejected := true, error := hook.Dispute?);
          if f.write {
            if hook.Assignment? { blocked := true; }
          } else {
            storage := storage[p.target := OutcomeRejected];
          }
        case Ambiguous =>
          record := record.(error := true);
          if hook.Dispute? && !f.write { storage := storage[p.target := OutcomeUnknown]; }
      }
      records := records[p.target := record.(pending := false)];
      busy := false;
      if a.Success? { Reconcile(p.target); }
    }

    /** reconcile, up to its read */
    method Reconcile(t: Target)
      modifies this
      ensures Abs() == AfterReconcile(old(Abs()), t)
    {
      if t !in records || records[t].pending || records[t].checking { return; }
      records := records[t := records[t].(checking := true, error := false)];
      checks := checks + {Read(nextRead, t, records[t].serial)};
      trace := trace + [ReadIssued(t, nextRead)];
      nextRead := nextRead + 1;
    }

    /** reconcile, after its read */
    method ReadAnswered(d: Read, ok: bool, terminal: bool, f: Faults)
      requires d in checks
      modifies this
      ensures Abs() == AfterRead(old(Abs()), d, ok, terminal, f)
    {
      checks := checks - {d};
      trace := trace + if ok then [ReadShown(d.target, d.id, terminal)] else [];
      if d.target !in records || records[d.target].serial != d.serial { return; }
      var record := records[d.target];
      if !ok {
        records := records[d.target := record.(checking := false, error := true)];
      } else if record.rejected || terminal {
        if f.write {
          records := records[d.target := record.(checking := false, error := true)];
        } else {
          storage := storage - {d.target};
          records := records - {d.target};
        }
      } else {
        records := records[d.target := record.(checking := false)];
      }
    }

    /** change of the dispute hook */
    method Edit(f: Faults)
      modifies this
      ensures Abs() == AfterEdit(old(Abs()), f)
    {
      if !hook.Dispute? || selected.None? || blocked || selected.value in records || f.write { return; }
      storage := storage - {selected.value};
    }
  }

  function Start(hook: Hook): Tab {
    Tab(hook, map[], false, false, None, map[], 0, 0, {}, {}, [])
  }
}
