/** The marker of a new order whose outcome is not known yet
    (packages/ui/src/new-order-draft.ts:43-49, 91-188). It lives in session storage, or in one
    window record when storage fails. Storage calls may throw: each is a parameter. */
module NewOrderPending {
  import opened Options
  import opened OrderSubmission

  /** keyed: protocol SERVER_KEYED rather than LOCAL_ONLY. */
  datatype Pending = Pending(ownerId: string, requestId: string, persistent: bool, keyed: bool,
                             submitted: Option<Submission>)

  /** Non-empty text under a storage key. */
  datatype Stored = Unparsable | Parsed(value: Value)

  /** The two storage keys of the tab and the window record. */
  datatype Browser = Browser(marker: Option<Stored>, draft: Option<Stored>, memory: Option<Pending>)

  /** missing: there is no storage. The others: the call throws. */
  datatype Faults = Faults(
    missing: bool, getMarker: bool, setMarker: bool, removeMarker: bool, getDraft: bool, removeDraft: bool)

  datatype Post = Post(ownerId: string, clientRequestId: string, submission: Submission)

  // ---------------------------------------------------------------- markers

  /** The object written by beginPendingCreate. */
  function MarkerOf(p: Pending): Value {
    Object(map[
      SCHEMA_VERSION := Number(2.0), OWNER_ID := Text(p.ownerId), REQUEST_ID := Text(p.requestId),
      PROTOCOL := Text(if p.keyed then "SERVER_KEYED" else "LOCAL_ONLY"),
      SUBMITTED := if p.submitted.Some? then ToValue(p.submitted.value) else Undefined])
  }

  function Written(p: Pending): Stored { Parsed(Kept(MarkerOf(p))) }

  /** What a parsed marker means to an owner. A damaged one of the same owner stays a pending
      request, without a usable key. */
  function Recognised(v: Value, owner: string): Option<Pending> {
    var version, id := Field(v, SCHEMA_VERSION), Field(v, REQUEST_ID);
    if (version == Number(1.0) || version == Number(2.0)) && Field(v, OWNER_ID) == Text(owner) && owner != "" then
      if !(id.Text? && 0 < |id.text| <= 100) then Some(Pending(owner, "", true, false, None))
      else
        var submitted :=
          if version == Number(2.0) && Field(v, PROTOCOL) == Text("SERVER_KEYED") && IsUuid(id.text)
          then Submitted(Field(v, SUBMITTED)) else None;
        Some(Pending(owner, id.text, true, submitted.Some?, submitted))
    else None
  }

  /** What the stored marker means to an owner. */
  function StoredPending(b: Browser, owner: string): Option<Pending> {
    if b.marker.Some? && b.marker.value.Parsed? then Recognised(b.marker.value.value, owner) else None
  }

  // ---------------------------------------------------------------- reading

  function WithoutMarker(b: Browser, f: Faults): Browser {
    if f.missing || f.removeMarker then b else b.(marker := None)
  }

  function FromMemory(b: Browser, owner: string): (Browser, Option<Pending>) {
    if b.memory.Some? && b.memory.value.ownerId == owner && owner != "" then (b, b.memory)
    else (b.(memory := None), None)
  }

  /** readPendingCreate: a marker that is not the owner's, or cannot be read, is removed. */
  function AfterRead(b: Browser, owner: string, f: Faults): (Browser, Option<Pending>) {
    if f.missing then FromMemory(b, owner)
    else if f.getMarker then FromMemory(WithoutMarker(b, f), owner)
    else if b.marker.None? then FromMemory(b, owner)
    else if StoredPending(b, owner).Some? then (b, StoredPending(b, owner))
    else FromMemory(WithoutMarker(b, f), owner)
  }

  // ---------------------------------------------------------------- beginning

  /** beginPendingCreate; id is the fresh random UUID. */
  function AfterBegin(b: Browser, owner: string, value: Option<Value>, id: string, f: Faults)
    : (Browser, Option<Pending>) {
    if owner == "" then (b, None)
    else
      var (b1, existing) := AfterRead(b, owner, f);
      var submitted := if value.Some? then Submitted(value.value) else None;
      if existing.Some? || (value.Some? && submitted.None?) then (b1, None)
      else
        var p := Pending(owner, id, !f.missing && !f.setMarker, submitted.Some?, submitted);
        if p.persistent then (b1.(marker := Some(Written(p))), Some(p))
        else (b1.(memory := Some(p)), Some(p))
  }

  // ---------------------------------------------------------------- sending

  predicate CanRecover(p: Pending) {
    p.keyed && IsUuid(p.requestId) && p.submitted.Some? && Submitted(ToValue(p.submitted.value)).Some?
  }

  /** The request of sendCurrentOrder, authenticated as the owner. */
  function PostOf(p: Pending): Post
    requires CanRecover(p)
  {
    Post(p.ownerId, p.requestId, Submitted(ToValue(p.submitted.value)).value)
  }

  // ---------------------------------------------------------------- resolving

  predicate Names(v: Value, p: Pending) {
    Field(v, OWNER_ID) == Text(p.ownerId) && Field(v, REQUEST_ID) == Text(p.requestId)
  }

  predicate StoredMatches(b: Browser, p: Pending, f: Faults) {
    !f.missing && !f.getMarker && b.marker.Some? && b.marker.value.Parsed? && Names(b.marker.value.value, p)
  }

  predicate MemoryMatches(b: Browser, p: Pending) {
    b.memory.Some? && b.memory.value.ownerId == p.ownerId && b.memory.value.requestId == p.requestId
  }

  /** ownsPendingCreate. */
  predicate Owns(b: Browser, p: Pending, f: Faults) { StoredMatches(b, p, f) || MemoryMatches(b, p) }

  /** Reading the owner of the stored draft throws. */
  predicate DraftThrows(b: Browser, f: Faults) {
    !f.missing && (f.getDraft || (b.draft.Some? && (b.draft.value.Unparsable? || b.draft.value.value.Null?)))
  }

  function WithoutDraftOf(b: Browser, owner: string, f: Faults): Browser {
    if && !f.missing && !f.removeDraft && b.draft.Some? && b.draft.value.Parsed?
       && Field(b.draft.value.value, OWNER_ID) == Text(owner)
    then b.(draft := None) else b
  }

  /** resolvePendingCreate. */
  function AfterResolve(b: Browser, p: Pending, orderId: string, f: Faults): (Browser, bool) {
    if orderId == "" || !Owns(b, p, f) then (b, false)
    else if DraftThrows(b, f) then
      if StoredMatches(b, p, f) then (b, false) else (b.(memory := None), true)
    else
      var b1 := WithoutDraftOf(b, p.ownerId, f);
      if StoredMatches(b, p, f) && f.removeMarker then (b1, false)
      else
        (b1.(marker := if StoredMatches(b, p, f) then None else b.marker,
             memory := if MemoryMatches(b, p) then None else b.memory), true)
  }

  /** clearNewOrderDraft. */
  function AfterClear(b: Browser, f: Faults): Browser {
    WithoutMarker(b.(draft := if f.missing || f.removeDraft then b.draft else None, memory := None), f)
  }

  class PendingCreates {
    var marker: Option<Stored>
    var draft: Option<Stored>
    var memory: Option<Pending>

    ghost function Abs(): Browser
      reads this
    {
      Browser(marker, draft, memory)
    }

    constructor (stored: Option<Stored>)
      ensures Abs() == Browser(None, stored, None)
    {
      marker, draft, memory := None, stored, None;
    }

    method ReadPending(owner: string, f: Faults) returns (r: Option<Pending>)
      modifies this
      ensures (Abs(), r) == AfterRead(old(Abs()), owner, f)
    {
      if !f.missing {
        if f.getMarker {
          if !f.removeMarker { marker := None; }
        } else if marker.Some? {
          if marker.value.Parsed? {
            var p := Recognised(marker.value.value, owner);
            if p.Some? { return p; }
          }
          if !f.removeMarker { marker := None; }
        }
      }
      if memory.Some? && memory.value.ownerId == owner && owner != "" { return memory; }
      memory := None;
      return None;
    }

    method Begin(owner: string, value: Option<Value>, id: string, f: Faults) returns (r: Option<Pending>)
      modifies this
      ensures (Abs(), r) == AfterBegin(old(Abs()), owner, value, id, f)
    {
      if owner == "" { return None; }
      var existing := ReadPending(owner, f);
      if existing.Some? { return None; }
      var submitted: Option<Submission> := None;
      if value.Some? {
        submitted := Submitted(value.value);
        if submitted.None? { return None; }
      }
      var request := Pending(owner, id, false, submitted.Some?, submitted);
      if !f.missing && !f.setMarker {
        marker := Some(Written(request));
        request := request.(persistent := true);
      } else {
        memory := Some(request);
      }
      return Some(request);
    }

    method Resolve(p: Pending, orderId: string, f: Faults) returns (resolved: bool)
      modifies this
      ensures (Abs(), resolved) == AfterResolve(old(Abs()), p, orderId, f)
    {
      if orderId == "" { return false; }
      var matchingStored :=
        !f.missing && !f.getMarker && marker.Some? && marker.value.Parsed? && Names(marker.value.value, p);
      var matchingMemory := memory.Some? && memory.value.ownerId == p.ownerId && memory.value.requestId == p.requestId;
      if !matchingStored && !matchingMemory { return false; }
      if !f.missing && (f.getDraft || (draft.Some? && (draft.value.Unparsable? || draft.value.value.Null?))) {
        if matchingStored { return false; }
      } else {
        if !f.missing && draft.Some? && Field(draft.value.value, OWNER_ID) == Text(p.ownerId) && !f.removeDraft {
          draft := None;
        }
        if matchingStored {
          if f.removeMarker { return false; }
          marker := None;
        }
      }
      if matchingMemory { memory := None; }
      return true;
    }

    method Clear(f: Faults)
      modifies this
      ensures Abs() == AfterClear(old(Abs()), f)
    {
      if !f.missing && !f.removeDraft { draft := None; }
      memory := None;
      if !f.missing && !f.removeMarker { marker := None; }
    }
  }
}
