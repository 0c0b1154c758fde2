/** Every answer of the login service, read off the answers it gave before: no rows, attempt
    counters or flags, only what callers have seen. */
module SmsAnswers {
  import opened Options
  import opened SmsLogin

  datatype Call =
    | Request(raw: string, code: string, now: int)
    | Verify(raw: string, code: string, now: int)
    | SetBlocked(phone: string, operator: bool, blocked: bool)

  datatype Answer = ToRequest(request: RequestOutcome) | ToVerify(verify: VerifyOutcome) | ToBlock(block: BlockOutcome)

  /** A call and how it was answered. */
  datatype Entry = Entry(call: Call, answer: Answer)

  function Do(s: Store, c: Call): (Store, Answer) {
    match c
    case Request(raw, code, now) => var (t, r) := AfterRequest(s, raw, code, now); (t, ToRequest(r))
    case Verify(raw, code, now) => var (t, r) := AfterVerify(s, raw, code, now); (t, ToVerify(r))
    case SetBlocked(phone, operator, blocked) =>
      var (t, r) := AfterSetBlocked(s, phone, operator, blocked); (t, ToBlock(r))
  }

  function Run(calls: seq<Call>): Store {
    if calls == [] then Store([], map[], 0) else Do(Run(calls[..|calls| - 1]), calls[|calls| - 1]).0
  }

  /** What the callers saw. */
  function History(calls: seq<Call>): seq<Entry> {
    if calls == [] then []
    else
      var before, c := calls[..|calls| - 1], calls[|calls| - 1];
      History(before) + [Entry(c, Do(Run(before), c).1)]
  }

  // ---------------------------------------------------------------- what a history says

  /** A code was sent to the phone. */
  predicate Sends(e: Entry, phone: string) {
    e.call.Request? && e.answer.ToRequest? && e.answer.request.CodeSent? && e.answer.request.to == phone
  }

  predicate Verifies(e: Entry, phone: string) {
    e.call.Verify? && e.answer.ToVerify? && NormalizePhone(e.call.raw) == Some(phone)
  }

  /** The right code was given, whether or not the account is blocked. */
  predicate UsesUp(e: Entry, phone: string) {
    Verifies(e, phone) && (e.answer.verify.LoggedIn? || e.answer.verify.AccountBlocked?)
  }

  predicate Misses(e: Entry, phone: string) { Verifies(e, phone) && e.answer.verify.WrongCode? }

  /** Codes sent to the phone from that time on. */
  function SentSince(h: seq<Entry>, phone: string, from: int): nat {
    if h == [] then 0
    else
      var e := h[|h| - 1];
      SentSince(h[..|h| - 1], phone, from) + if Sends(e, phone) && e.call.now >= from then 1 else 0
  }

  /** Wrong codes given for the phone after position i. */
  function MissesAfter(h: seq<Entry>, i: nat, phone: string): nat {
    if |h| <= i + 1 then 0
    else MissesAfter(h[..|h| - 1], i, phone) + if Misses(h[|h| - 1], phone) then 1 else 0
  }

  /** The code sent at position i is the phone's latest. */
  predicate LatestSent(h: seq<Entry>, i: nat, phone: string) {
    && i < |h| && Sends(h[i], phone)
    && forall k :: i < k < |h| ==> !Sends(h[k], phone)
  }

  /** The code sent at position i is the phone's latest, not five minutes old, and was neither
      given nor missed five times since. */
  predicate OpenCode(h: seq<Entry>, i: nat, phone: string, now: int) {
    && LatestSent(h, i, phone)
    && now < h[i].call.now + CODE_TTL_MS
    && MissesAfter(h, i, phone) < MAX_VERIFY_ATTEMPTS
    && !UsedAfter(h, i, phone)
  }

  predicate UsedAfter(h: seq<Entry>, i: nat, phone: string) {
    exists k :: i < k < |h| && UsesUp(h[k], phone)
  }

  /** The first right code of the phone made its account. */
  predicate HasAccount(h: seq<Entry>, phone: string) {
    exists k :: 0 <= k < |h| && UsesUp(h[k], phone)
  }

  /** The last stored change of the account was to block it. */
  predicate IsBlocked(h: seq<Entry>, phone: string) {
    if h == [] then false
    else
      var e := h[|h| - 1];
      if e.call.SetBlocked? && e.call.phone == phone && e.answer == ToBlock(BlockStored) then e.call.blocked
      else IsBlocked(h[..|h| - 1], phone)
  }

  // ---------------------------------------------------------------- rows and histories

  /** The newest row of a phone is its latest code. */
  ghost predicate RowAgrees(s: Store, h: seq<Entry>, phone: string) {
    match Newest(s.codes, phone)
    case None => forall k :: 0 <= k < |h| ==> !Sends(h[k], phone)
    case Some(j) => exists i: nat :: LatestSent(h, i, phone) && RowIs(s.codes[j], h, i, phone)
  }

  ghost predicate RowIs(row: SmsCode, h: seq<Entry>, i: nat, phone: string)
    requires LatestSent(h, i, phone)
  {
    && row.code == h[i].call.code
    && row.expiresAt == h[i].call.now + CODE_TTL_MS
    && row.attempts == MissesAfter(h, i, phone)
    && (row.usedAt.Some? <==> UsedAfter(h, i, phone))
  }

  ghost predicate UserAgrees(s: Store, h: seq<Entry>, phone: string) {
    && (phone in s.users <==> HasAccount(h, phone))
    && (phone in s.users ==> (s.users[phone] <==> IsBlocked(h, phone)))
    && (IsBlocked(h, phone) ==> HasAccount(h, phone))
  }

  ghost predicate Agrees(s: Store, h: seq<Entry>) {
    && (forall c :: c in s.codes ==> c.generation < s.nextGeneration)
    && (forall phone, from :: CountSince(s.codes, phone, from) == SentSince(h, phone, from))
    && (forall phone :: RowAgrees(s, h, phone))
    && (forall phone :: UserAgrees(s, h, phone))
  }

  lemma {:induction false} CountUpdate(codes: seq<SmsCode>, i: nat, c: SmsCode, phone: string, from: int)
    requires i < |codes| && c.phone == codes[i].phone && c.createdAt == codes[i].createdAt
    ensures CountSince(codes[i := c], phone, from) == CountSince(codes, phone, from)
  {
    var n := |codes| - 1;
    if i < n {
      assert codes[i := c][..n] == codes[..n][i := c];
      CountUpdate(codes[..n], i, c, phone, from);
    } else {
      assert codes[i := c][..n] == codes[..n];
    }
  }

  lemma {:induction false} NewestUpdate(codes: seq<SmsCode>, i: nat, c: SmsCode, phone: string)
    requires i < |codes| && c.phone == codes[i].phone && c.generation == codes[i].generation
    ensures Newest(codes[i := c], phone) == Newest(codes, phone)
  {
    var n := |codes| - 1;
    if i < n {
      assert codes[i := c][..n] == codes[..n][i := c];
      NewestUpdate(codes[..n], i, c, phone);
    } else {
      assert codes[i := c][..n] == codes[..n];
    }
  }

  lemma NewestAppend(codes: seq<SmsCode>, row: SmsCode, phone: string)
    requires forall c :: c in codes ==> c.generation < row.generation
    ensures Newest(codes + [row], phone) == if row.phone == phone then Some(|codes|) else Newest(codes, phone)
    ensures forall from ::
      CountSince(codes + [row], phone, from)
      == CountSince(codes, phone, from) + if row.phone == phone && row.createdAt >= from then 1 else 0
  {
    assert (codes + [row])[..|codes|] == codes;
  }

  // ---------------------------------------------------------------- one more entry

  lemma SentAppended(h: seq<Entry>, e: Entry, i: nat, phone: string)
    ensures LatestSent(h + [e], i, phone) <==>
            if Sends(e, phone) then i == |h| else LatestSent(h, i, phone)
  {
    var g := h + [e];
    assert forall k :: 0 <= k < |h| ==> g[k] == h[k];
    assert g[|h|] == e;
  }

  lemma UsedAppended(h: seq<Entry>, e: Entry, i: nat, phone: string)
    ensures UsedAfter(h + [e], i, phone) <==> UsedAfter(h, i, phone) || (i < |h| && UsesUp(e, phone))
    ensures HasAccount(h + [e], phone) <==> HasAccount(h, phone) || UsesUp(e, phone)
  {
    var g := h + [e];
    assert forall k :: 0 <= k < |h| ==> g[k] == h[k];
    assert g[|h|] == e;
  }

  lemma CountsAppended(h: seq<Entry>, e: Entry, i: nat, phone: string)
    requires i <= |h|
    ensures MissesAfter(h + [e], i, phone)
         == if i == |h| then 0 else MissesAfter(h, i, phone) + if Misses(e, phone) then 1 else 0
    ensures forall from ::
      SentSince(h + [e], phone, from)
      == SentSince(h, phone, from) + if Sends(e, phone) && e.call.now >= from then 1 else 0
    ensures IsBlocked(h + [e], phone)
         <==> if e.call.SetBlocked? && e.call.phone == phone && e.answer == ToBlock(BlockStored) then e.call.blocked
              else IsBlocked(h, phone)
  {
    assert (h + [e])[..|h|] == h;
  }

  /** An entry that is not about the phone's codes, while its newest row stays as it was. */
  lemma RowStays(s: Store, t: Store, h: seq<Entry>, e: Entry, phone: string)
    requires RowAgrees(s, h, phone) && !Sends(e, phone) && !Misses(e, phone) && !UsesUp(e, phone)
    requires Newest(t.codes, phone) == Newest(s.codes, phone)
    requires Newest(s.codes, phone).Some? ==>
               t.codes[Newest(t.codes, phone).value] == s.codes[Newest(s.codes, phone).value]
    ensures RowAgrees(t, h + [e], phone)
  {
    if Newest(s.codes, phone).Some? {
      var i: nat :| LatestSent(h, i, phone) && RowIs(s.codes[Newest(s.codes, phone).value], h, i, phone);
      SentAppended(h, e, i, phone);
      UsedAppended(h, e, i, phone);
      CountsAppended(h, e, i, phone);
    }
  }

  /** A code is sent. */
  lemma RowAdded(s: Store, t: Store, h: seq<Entry>, e: Entry, phone: string)
    requires Sends(e, phone) && Newest(t.codes, phone) == Some(|s.codes|) && |t.codes| == |s.codes| + 1
    requires t.codes[|s.codes|]
          == SmsCode(s.nextGeneration, phone, e.call.code, e.call.now, e.call.now + CODE_TTL_MS, 0, None)
    ensures RowAgrees(t, h + [e], phone)
  {
    SentAppended(h, e, |h|, phone);
    CountsAppended(h, e, |h|, phone);
    assert LatestSent(h + [e], |h|, phone) && RowIs(t.codes[|s.codes|], h + [e], |h|, phone);
  }

  /** The newest row is compared with a code. */
  lemma RowCompared(s: Store, t: Store, h: seq<Entry>, e: Entry, phone: string, j: nat)
    requires RowAgrees(s, h, phone) && Newest(s.codes, phone) == Some(j) && s.codes[j].usedAt.None?
    requires !Sends(e, phone) && Newest(t.codes, phone) == Some(j)
    requires if Misses(e, phone)
             then !UsesUp(e, phone) && t.codes[j] == s.codes[j].(attempts := s.codes[j].attempts + 1)
             else UsesUp(e, phone) && t.codes[j] == s.codes[j].(usedAt := Some(e.call.now))
    ensures RowAgrees(t, h + [e], phone)
  {
    var i: nat :| LatestSent(h, i, phone) && RowIs(s.codes[j], h, i, phone);
    SentAppended(h, e, i, phone);
    UsedAppended(h, e, i, phone);
    CountsAppended(h, e, i, phone);
  }

  /** An entry that is not about the phone's account. */
  lemma UserStays(s: Store, t: Store, h: seq<Entry>, e: Entry, phone: string)
    requires UserAgrees(s, h, phone) && !UsesUp(e, phone)
    requires !(e.call.SetBlocked? && e.call.phone == phone && e.answer == ToBlock(BlockStored))
    requires phone in t.users <==> phone in s.users
    requires phone in s.users ==> t.users[phone] == s.users[phone]
    ensures UserAgrees(t, h + [e], phone)
  {
    UsedAppended(h, e, 0, phone);
    CountsAppended(h, e, 0, phone);
  }

  /** An answer that changes nothing. */
  lemma NothingSaid(s: Store, h: seq<Entry>, e: Entry)
    requires Agrees(s, h) && forall phone :: !Sends(e, phone) && !Misses(e, phone) && !UsesUp(e, phone)
    requires !(e.call.SetBlocked? && e.answer == ToBlock(BlockStored))
    ensures Agrees(s, h + [e])
  {
    forall phone, from ensures CountSince(s.codes, phone, from) == SentSince(h + [e], phone, from) {
      CountsAppended(h, e, 0, phone);
    }
    forall phone ensures RowAgrees(s, h + [e], phone) { RowStays(s, s, h, e, phone); }
    forall phone ensures UserAgrees(s, h + [e], phone) { UserStays(s, s, h, e, phone); }
  }

  lemma RequestSaid(s: Store, h: seq<Entry>, e: Entry, phone: string)
    requires Agrees(s, h) && e.call.Request? && NormalizePhone(e.call.raw) == Some(phone)
    requires e.answer == ToRequest(CodeSent(phone, e.call.code))
    requires CountSince(s.codes, phone, e.call.now - SEND_WINDOW_MS) < MAX_SENDS_PER_WINDOW
    ensures Agrees(RequestFor(s, phone, e.call.code, e.call.now).0, h + [e])
  {
    var t := RequestFor(s, phone, e.call.code, e.call.now).0;
    var row := SmsCode(s.nextGeneration, phone, e.call.code, e.call.now, e.call.now + CODE_TTL_MS, 0, None);
    forall p, from ensures CountSince(t.codes, p, from) == SentSince(h + [e], p, from) {
      NewestAppend(s.codes, row, p);
      CountsAppended(h, e, 0, p);
    }
    forall p ensures RowAgrees(t, h + [e], p) {
      NewestAppend(s.codes, row, p);
      if p == phone { RowAdded(s, t, h, e, p); } else { RowStays(s, t, h, e, p); }
    }
    forall p ensures UserAgrees(t, h + [e], p) { UserStays(s, t, h, e, p); }
  }

  lemma ComparedSaid(s: Store, h: seq<Entry>, e: Entry, phone: string, j: nat, row: SmsCode, t: Store)
    requires Agrees(s, h) && Verifies(e, phone)
    requires Newest(s.codes, phone) == Some(j) && Usable(s.codes[j], e.call.now)
    requires t == s.(codes := s.codes[j := row], users := t.users)
    requires if Misses(e, phone) then t.users == s.users && row == s.codes[j].(attempts := s.codes[j].attempts + 1)
             else UsesUp(e, phone) && row == s.codes[j].(usedAt := Some(e.call.now))
                  && t.users == if phone in s.users then s.users else s.users[phone := false]
    ensures Agrees(t, h + [e])
  {
    forall p, from ensures CountSince(t.codes, p, from) == SentSince(h + [e], p, from) {
      CountUpdate(s.codes, j, row, p, from);
      CountsAppended(h, e, 0, p);
    }
    forall p ensures RowAgrees(t, h + [e], p) {
      NewestUpdate(s.codes, j, row, p);
      if p == phone { RowCompared(s, t, h, e, p, j); } else { RowStays(s, t, h, e, p); }
    }
    forall p ensures UserAgrees(t, h + [e], p) {
      assert UserAgrees(s, h, p);
      if p == phone && UsesUp(e, p) {
        UsedAppended(h, e, 0, p);
        CountsAppended(h, e, 0, p);
      } else {
        UserStays(s, t, h, e, p);
      }
    }
  }

  lemma BlockSaid(s: Store, h: seq<Entry>, e: Entry)
    requires Agrees(s, h) && e.call.SetBlocked? && e.answer == ToBlock(BlockStored) && e.call.phone in s.users
    ensures Agrees(s.(users := s.users[e.call.phone := e.call.blocked]), h + [e])
  {
    var t := s.(users := s.users[e.call.phone := e.call.blocked]);
    forall phone, from ensures CountSince(t.codes, phone, from) == SentSince(h + [e], phone, from) {
      CountsAppended(h, e, 0, phone);
    }
    forall phone ensures RowAgrees(t, h + [e], phone) { RowStays(s, t, h, e, phone); }
    forall phone ensures UserAgrees(t, h + [e], phone) {
      assert UserAgrees(s, h, phone);
      if phone == e.call.phone {
        UsedAppended(h, e, 0, phone);
        CountsAppended(h, e, 0, phone);
      } else {
        UserStays(s, t, h, e, phone);
      }
    }
  }

  lemma StepAgrees(s: Store, h: seq<Entry>, c: Call)
    requires Agrees(s, h)
    ensures Agrees(Do(s, c).0, h + [Entry(c, Do(s, c).1)])
  {
    hide Agrees, Newest, CountSince, NormalizePhone;
    var e := Entry(c, Do(s, c).1);
    match c
    case Request(raw, code, now) =>
      if e.answer.request.CodeSent? {
        RequestSaid(s, h, e, NormalizePhone(raw).value);
      } else {
        NothingSaid(s, h, e);
      }
    case Verify(raw, code, now) =>
      if e.answer.verify.BadVerifyPhone? || e.answer.verify.Unavailable? {
        NothingSaid(s, h, e);
      } else {
        var phone := NormalizePhone(raw).value;
        var j := Newest(s.codes, phone).value;
        ComparedSaid(s, h, e, phone, j, Do(s, c).0.codes[j], Do(s, c).0);
      }
    case SetBlocked(_, _, _) =>
      if e.answer == ToBlock(BlockStored) { BlockSaid(s, h, e); } else { NothingSaid(s, h, e); }
  }

  lemma {:induction false} RunAgrees(calls: seq<Call>)
    ensures Agrees(Run(calls), History(calls))
  {
    if calls != [] {
      RunAgrees(calls[..|calls| - 1]);
      StepAgrees(Run(calls[..|calls| - 1]), History(calls[..|calls| - 1]), calls[|calls| - 1]);
    }
  }

  // ---------------------------------------------------------------- the answers

  /** A code is sent exactly to a well-formed phone that was sent fewer than three within the last
      ten minutes; the message holds the code. */
  lemma {:induction false} RequestAnswered(calls: seq<Call>, raw: string, code: string, now: int)
    ensures var h, r := History(calls), AfterRequest(Run(calls), raw, code, now).1;
            match NormalizePhone(raw)
            case None => r == BadRequestPhone
            case Some(phone) =>
              r == if SentSince(h, phone, now - SEND_WINDOW_MS) < 3 then CodeSent(phone, code) else TooManyRequests
  {
    RunAgrees(calls);
  }

  /** What a code submitted for a phone is answered, after any calls: LoggedIn exactly if it is the
      phone's open code and the account is not blocked, AccountBlocked exactly if it is and the
      account is blocked, WrongCode exactly if another code is open, and otherwise Unavailable. */
  lemma {:induction false} VerifyAnswered(calls: seq<Call>, raw: string, code: string, now: int)
    ensures var h, r := History(calls), AfterVerify(Run(calls), raw, code, now).1;
            match NormalizePhone(raw)
            case None => r == BadVerifyPhone
            case Some(phone) =>
              && (r == LoggedIn(phone) <==>
                    !IsBlocked(h, phone) && exists i: nat :: OpenCode(h, i, phone, now) && h[i].call.code == code)
              && (r == AccountBlocked <==>
                    IsBlocked(h, phone) && exists i: nat :: OpenCode(h, i, phone, now) && h[i].call.code == code)
              && (r == WrongCode <==> exists i: nat :: OpenCode(h, i, phone, now) && h[i].call.code != code)
              && (r == Unavailable <==> forall i: nat :: !OpenCode(h, i, phone, now))
  {
    RunAgrees(calls);
    var s, h := Run(calls), History(calls);
    if NormalizePhone(raw).Some? {
      var phone := NormalizePhone(raw).value;
      assert UserAgrees(s, h, phone) && RowAgrees(s, h, phone);
      VerifyFromHistory(s, h, phone, code, now);
    }
  }

  lemma VerifyFromHistory(s: Store, h: seq<Entry>, phone: string, code: string, now: int)
    requires RowAgrees(s, h, phone) && UserAgrees(s, h, phone)
    ensures var r := VerifyFor(s, phone, code, now).1;
            && (r == LoggedIn(phone) <==>
                  !IsBlocked(h, phone) && exists i: nat :: OpenCode(h, i, phone, now) && h[i].call.code == code)
            && (r == AccountBlocked <==>
                  IsBlocked(h, phone) && exists i: nat :: OpenCode(h, i, phone, now) && h[i].call.code == code)
            && (r == WrongCode <==> exists i: nat :: OpenCode(h, i, phone, now) && h[i].call.code != code)
            && (r == Unavailable <==> forall i: nat :: !OpenCode(h, i, phone, now))
  {
    if Newest(s.codes, phone).Some? {
      var row := s.codes[Newest(s.codes, phone).value];
      var i: nat :| LatestSent(h, i, phone) && RowIs(row, h, i, phone);
      assert forall k: nat :: LatestSent(h, k, phone) ==> k == i;
      assert OpenCode(h, i, phone, now) <==> Usable(row, now);
    }
  }

  /** An account exists once the right code was given for its phone; the account made by a first
      login is not blocked, and only existing accounts are blocked. */
  lemma {:induction false} AccountsOf(calls: seq<Call>, phone: string, operator: bool, blocked: bool)
    ensures var h := History(calls);
            && (IsBlocked(h, phone) ==> HasAccount(h, phone))
            && AfterSetBlocked(Run(calls), phone, operator, blocked).1
            == if !HasAccount(h, phone) then UserUnknown else if blocked && operator then OperatorKept else BlockStored
  {
    RunAgrees(calls);
    assert UserAgrees(Run(calls), History(calls), phone);
  }

  // ---------------------------------------------------------------- phones

  predicate IsSeparator(c: char) { Cleaned([c]) == [] }

  lemma {:induction false} SeparatorsDropped(a: string, c: char, b: string)
    requires IsSeparator(c)
    ensures Cleaned(a + [c] + b) == Cleaned(a + b)
  {
    if a == [] {
      assert ([] + [c] + b)[0] == c && ([] + [c] + b)[1..] == b && [c][1..] == [] && [] + b == b;
    } else {
      assert (a + [c] + b)[1..] == a[1..] + [c] + b && (a + b)[1..] == a[1..] + b;
      SeparatorsDropped(a[1..], c, b);
    }
  }

  lemma {:induction false} DigitsCleaned(s: string)
    requires forall k :: 0 <= k < |s| ==> s[k] == '+' || '0' <= s[k] <= '9'
    ensures Cleaned(s) == s
  {
    if s != [] { DigitsCleaned(s[1..]); }
  }

  /** The three ways to write a number are one phone, and white space, dashes, brackets and points
      anywhere in it make no difference. */
  lemma {:induction false} OnePhone(digits: string, a: string, c: char, b: string)
    requires TenDigits(digits) && c in " -()."
    ensures NormalizePhone("+7" + digits) == NormalizePhone("7" + digits) == NormalizePhone("8" + digits)
            == Some("+7" + digits)
    ensures NormalizePhone(a + [c] + b) == NormalizePhone(a + b)
  {
    DigitsCleaned("+7" + digits);
    DigitsCleaned("7" + digits);
    DigitsCleaned("8" + digits);
    assert ("+7" + digits)[2..] == digits && ("+7" + digits)[..2] == "+7";
    assert ("7" + digits)[1..] == digits && ("8" + digits)[1..] == digits;
    assert [c][1..] == [];
    SeparatorsDropped(a, c, b);
  }
}
