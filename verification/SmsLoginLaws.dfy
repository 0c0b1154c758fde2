/** What the login rules add up to over whole runs: how many guesses fit into an interval, and
    that every login uses up its own code. */
module SmsLoginLaws {
  import opened Options
  import opened SmsLogin

  datatype Call =
    | Request(raw: string, code: string, now: int)
    | Verify(raw: string, code: string, now: int)

  /** The code of generation `generation` was compared with a submitted one at time at. */
  datatype Comparison = Comparison(phone: string, at: int, generation: nat, matched: bool)

  const START := Store([], map[], 0)

  function Step(s: Store, c: Call): Store {
    match c
    case Request(raw, code, now) => AfterRequest(s, raw, code, now).0
    case Verify(raw, code, now) => AfterVerify(s, raw, code, now).0
  }

  /** The store after a run of calls. */
  function Run(calls: seq<Call>): Store {
    if calls == [] then START else Step(Run(calls[..|calls| - 1]), calls[|calls| - 1])
  }

  /** The comparison a call makes, if any. */
  function Compares(s: Store, c: Call): seq<Comparison> {
    match c
    case Request(_, _, _) => []
    case Verify(raw, code, now) =>
      match NormalizePhone(raw)
      case None => []
      case Some(phone) => ComparesFor(s, phone, code, now)
  }

  function ComparesFor(s: Store, phone: string, code: string, now: int): seq<Comparison> {
    match Newest(s.codes, phone)
    case None => []
    case Some(i) =>
      if !Usable(s.codes[i], now) then []
      else [Comparison(phone, now, s.codes[i].generation, s.codes[i].code == code)]
  }

  /** All comparisons of a run, in order. */
  function Log(calls: seq<Call>): seq<Comparison> {
    if calls == [] then []
    else
      var before := calls[..|calls| - 1];
      Log(before) + Compares(Run(before), calls[|calls| - 1])
  }

  /** A comparison is exactly an answer other than a refusal. */
  lemma ComparesIsAnswer(s: Store, raw: string, code: string, now: int)
    ensures var r, log := AfterVerify(s, raw, code, now).1, Compares(s, Verify(raw, code, now));
            && (log == [] <==> r.BadVerifyPhone? || r.Unavailable?)
            && (log != [] ==> |log| == 1 && (log[0].matched <==> !r.WrongCode?))
  {
  }

  // ---------------------------------------------------------------- counting

  /** Comparisons for the phone with lo <= at <= hi. */
  function Guesses(log: seq<Comparison>, phone: string, lo: int, hi: int): nat {
    if log == [] then 0
    else
      var c := log[|log| - 1];
      Guesses(log[..|log| - 1], phone, lo, hi) + if c.phone == phone && lo <= c.at <= hi then 1 else 0
  }

  /** Codes of the phone created in the closed interval [a, b]. */
  function Codes(codes: seq<SmsCode>, phone: string, a: int, b: int): nat {
    if codes == [] then 0
    else
      var c := codes[|codes| - 1];
      Codes(codes[..|codes| - 1], phone, a, b) + if c.phone == phone && a <= c.createdAt <= b then 1 else 0
  }

  /** Comparisons a record has been through. */
  function Spent(c: SmsCode): nat { c.attempts + if c.usedAt.Some? then 1 else 0 }

  /** Comparisons spent on the phone's codes created in [a, b]. */
  function Budget(codes: seq<SmsCode>, phone: string, a: int, b: int): nat {
    if codes == [] then 0
    else
      var c := codes[|codes| - 1];
      Budget(codes[..|codes| - 1], phone, a, b) + if c.phone == phone && a <= c.createdAt <= b then Spent(c) else 0
  }

  lemma {:induction false} CodesUpdate(codes: seq<SmsCode>, i: nat, c: SmsCode, phone: string, a: int, b: int)
    requires i < |codes| && c.phone == codes[i].phone && c.createdAt == codes[i].createdAt
    ensures Codes(codes[i := c], phone, a, b) == Codes(codes, phone, a, b)
  {
    var n := |codes| - 1;
    if i < n {
      assert codes[i := c][..n] == codes[..n][i := c];
      CodesUpdate(codes[..n], i, c, phone, a, b);
    } else {
      assert codes[i := c][..n] == codes[..n];
    }
  }

  /** One more comparison on a record raises the budget of every interval it belongs to. */
  lemma {:induction false} BudgetUpdate(codes: seq<SmsCode>, i: nat, c: SmsCode, phone: string, a: int, b: int)
    requires i < |codes| && c.phone == codes[i].phone && c.createdAt == codes[i].createdAt
    requires Spent(c) == Spent(codes[i]) + 1
    ensures Budget(codes[i := c], phone, a, b)
         == Budget(codes, phone, a, b) + if c.phone == phone && a <= c.createdAt <= b then 1 else 0
  {
    var n := |codes| - 1;
    if i < n {
      assert codes[i := c][..n] == codes[..n][i := c];
      BudgetUpdate(codes[..n], i, c, phone, a, b);
    } else {
      assert codes[i := c][..n] == codes[..n];
    }
  }

  lemma {:induction false} CodesSince(codes: seq<SmsCode>, phone: string, a: int, b: int, from: int)
    requires from <= a
    ensures Codes(codes, phone, a, b) <= CountSince(codes, phone, from)
  {
    if codes != [] { CodesSince(codes[..|codes| - 1], phone, a, b, from); }
  }

  lemma {:induction false} CodesSplit(codes: seq<SmsCode>, phone: string, a: int, m: int, b: int)
    requires a <= m <= b + 1
    ensures Codes(codes, phone, a, b) == Codes(codes, phone, a, m - 1) + Codes(codes, phone, m, b)
  {
    if codes != [] { CodesSplit(codes[..|codes| - 1], phone, a, m, b); }
  }

  lemma {:induction false} BudgetBound(codes: seq<SmsCode>, phone: string, a: int, b: int)
    requires forall c :: c in codes ==> Spent(c) <= MAX_VERIFY_ATTEMPTS
    ensures Budget(codes, phone, a, b) <= MAX_VERIFY_ATTEMPTS * Codes(codes, phone, a, b)
  {
    if codes != [] {
      assert codes[|codes| - 1] in codes;
      BudgetBound(codes[..|codes| - 1], phone, a, b);
    }
  }

  // ---------------------------------------------------------------- one call

  /** What a call does to the stored codes. */
  datatype Effect = Nothing | Added(row: SmsCode) | Compared(i: nat, row: SmsCode)

  lemma EffectOf(s: Store, c: Call) returns (e: Effect)
    ensures var t, log := Step(s, c).codes, Compares(s, c);
            match e
            case Nothing => t == s.codes && log == []
            case Added(row) =>
              && t == s.codes + [row] && log == []
              && row.createdAt == c.now && Spent(row) == 0
              && row.expiresAt == row.createdAt + CODE_TTL_MS && row.generation == s.nextGeneration
              && NormalizePhone(c.raw) == Some(row.phone)
              && CountSince(s.codes, row.phone, c.now - SEND_WINDOW_MS) < MAX_SENDS_PER_WINDOW
            case Compared(i, row) =>
              && i < |s.codes| && Newest(s.codes, row.phone) == Some(i)
              && Usable(s.codes[i], c.now)
              && t == s.codes[i := row]
              && log == [Comparison(row.phone, c.now, row.generation, row.usedAt.Some?)]
              && (row == s.codes[i].(attempts := s.codes[i].attempts + 1) || row == s.codes[i].(usedAt := Some(c.now)))
              && NormalizePhone(c.raw) == Some(row.phone)
    ensures Step(s, c).nextGeneration == s.nextGeneration + if e.Added? then 1 else 0
  {
    var phone := NormalizePhone(c.raw);
    e := Nothing;
    if phone.Some? {
      match c
      case Request(raw, code, now) =>
        if CountSince(s.codes, phone.value, now - SEND_WINDOW_MS) < MAX_SENDS_PER_WINDOW {
          e := Added(SmsCode(s.nextGeneration, phone.value, code, now, now + CODE_TTL_MS, 0, None));
        }
      case Verify(raw, code, now) =>
        var i := Newest(s.codes, phone.value);
        if i.Some? && Usable(s.codes[i.value], now) {
          e := Compared(i.value, Step(s, c).codes[i.value]);
        }
    }
  }

  /** What every run keeps about every stored code. */
  ghost predicate RowsOk(s: Store) {
    && (forall c :: c in s.codes ==> c.attempts <= MAX_VERIFY_ATTEMPTS && Spent(c) <= MAX_VERIFY_ATTEMPTS)
    && (forall c :: c in s.codes ==> c.expiresAt == c.createdAt + CODE_TTL_MS)
    && (forall c :: c in s.codes ==> c.generation < s.nextGeneration)
    && (forall i, j :: 0 <= i < j < |s.codes| ==> s.codes[i].generation < s.codes[j].generation)
  }

  lemma {:induction false} RowsKept(calls: seq<Call>)
    ensures RowsOk(Run(calls))
  {
    if calls != [] {
      var before := calls[..|calls| - 1];
      RowsKept(before);
      var e := EffectOf(Run(before), calls[|calls| - 1]);
    }
  }

  // ---------------------------------------------------------------- sending

  lemma AddedSends(codes: seq<SmsCode>, row: SmsCode, phone: string, w: int)
    requires Codes(codes, phone, w, w + SEND_WINDOW_MS) <= MAX_SENDS_PER_WINDOW
    requires CountSince(codes, row.phone, row.createdAt - SEND_WINDOW_MS) < MAX_SENDS_PER_WINDOW
    ensures Codes(codes + [row], phone, w, w + SEND_WINDOW_MS) <= MAX_SENDS_PER_WINDOW
  {
    assert (codes + [row])[..|codes|] == codes;
    if row.createdAt <= w + SEND_WINDOW_MS {
      CodesSince(codes, phone, w, w + SEND_WINDOW_MS, row.createdAt - SEND_WINDOW_MS);
    }
  }

  /** Whatever the clock does, at most three codes of a phone were created in any closed window
      of ten minutes. */
  lemma {:induction false} SendLimit(calls: seq<Call>, phone: string, w: int)
    ensures Codes(Run(calls).codes, phone, w, w + SEND_WINDOW_MS) <= MAX_SENDS_PER_WINDOW
  {
    if calls != [] {
      var before, c := calls[..|calls| - 1], calls[|calls| - 1];
      SendLimit(before, phone, w);
      var s := Run(before);
      var e := EffectOf(s, c);
      match e
      case Nothing =>
      case Added(row) =>
        AddedSends(s.codes, row, phone, w);
      case Compared(i, row) =>
        CodesUpdate(s.codes, i, row, phone, w, w + SEND_WINDOW_MS);
    }
  }

  /** A window of k times ten minutes (and a millisecond) holds at most 3k codes. */
  lemma {:induction false} SendRate(calls: seq<Call>, phone: string, a: int, b: int, k: nat)
    requires b - a < k * (SEND_WINDOW_MS + 1)
    ensures Codes(Run(calls).codes, phone, a, b) <= MAX_SENDS_PER_WINDOW * k
    decreases k
  {
    var codes := Run(calls).codes;
    if b < a {
      NoCodes(codes, phone, a, b);
    } else if b - a <= SEND_WINDOW_MS {
      SendLimit(calls, phone, a);
      CodesSplit(codes, phone, a, b + 1, a + SEND_WINDOW_MS);
    } else {
      var m := a + SEND_WINDOW_MS + 1;
      SendLimit(calls, phone, a);
      CodesSplit(codes, phone, a, m, b);
      SendRate(calls, phone, m, b, k - 1);
    }
  }

  lemma {:induction false} NoCodes(codes: seq<SmsCode>, phone: string, a: int, b: int)
    requires b < a
    ensures Codes(codes, phone, a, b) == 0
  {
    if codes != [] { NoCodes(codes[..|codes| - 1], phone, a, b); }
  }

  // ---------------------------------------------------------------- guessing

  /** The calls concerning the phone happen in time order. */
  ghost predicate InOrder(calls: seq<Call>, phone: string) {
    forall i, j :: 0 <= i < j < |calls|
      && NormalizePhone(calls[i].raw) == Some(phone) && NormalizePhone(calls[j].raw) == Some(phone)
      ==> calls[i].now <= calls[j].now
  }

  /** Codes of the phone are no younger than its last call. */
  lemma {:induction false} RowsBefore(calls: seq<Call>, phone: string, now: int)
    requires forall c :: c in calls && NormalizePhone(c.raw) == Some(phone) ==> c.now <= now
    ensures forall r :: r in Run(calls).codes && r.phone == phone ==> r.createdAt <= now
  {
    if calls != [] {
      var before, c := calls[..|calls| - 1], calls[|calls| - 1];
      assert c in calls && forall d :: d in before ==> d in calls;
      RowsBefore(before, phone, now);
      var e := EffectOf(Run(before), c);
    }
  }

  lemma GuessesAppend(log: seq<Comparison>, x: Comparison, phone: string, lo: int, hi: int)
    ensures Guesses(log + [x], phone, lo, hi)
         == Guesses(log, phone, lo, hi) + if x.phone == phone && lo <= x.at <= hi then 1 else 0
  {
    assert (log + [x])[..|log|] == log;
  }

  lemma BudgetAppend(codes: seq<SmsCode>, row: SmsCode, phone: string, a: int, b: int)
    requires Spent(row) == 0
    ensures Budget(codes + [row], phone, a, b) == Budget(codes, phone, a, b)
  {
    assert (codes + [row])[..|codes|] == codes;
  }

  /** A comparison in [lo, hi] is with a code created in (lo - 5 min, hi]. */
  lemma ComparedWithin(before: seq<Call>, c: Call, i: nat, phone: string, lo: int)
    requires InOrder(before + [c], phone) && NormalizePhone(c.raw) == Some(phone)
    requires i < |Run(before).codes| && Run(before).codes[i].phone == phone && Usable(Run(before).codes[i], c.now)
    ensures lo <= c.now ==> lo - CODE_TTL_MS + 1 <= Run(before).codes[i].createdAt
    ensures Run(before).codes[i].createdAt <= c.now
  {
    var calls := before + [c];
    forall d | d in before && NormalizePhone(d.raw) == Some(phone) ensures d.now <= c.now {
      var k :| 0 <= k < |before| && before[k] == d;
      assert calls[k] == d && calls[|before|] == c;
    }
    RowsBefore(before, phone, c.now);
    RowsKept(before);
    assert Run(before).codes[i] in Run(before).codes;
  }

  /** The comparisons made in [lo, hi] were paid for by codes created in (lo - 5 min, hi]. */
  lemma {:induction false} GuessesPaid(calls: seq<Call>, phone: string, lo: int, hi: int)
    requires InOrder(calls, phone)
    ensures Guesses(Log(calls), phone, lo, hi) <= Budget(Run(calls).codes, phone, lo - CODE_TTL_MS + 1, hi)
  {
    if calls != [] {
      var before, c := calls[..|calls| - 1], calls[|calls| - 1];
      assert calls == before + [c];
      GuessesPaid(before, phone, lo, hi);
      var s := Run(before);
      var e := EffectOf(s, c);
      if e.Compared? {
        GuessesAppend(Log(before), Comparison(e.row.phone, c.now, e.row.generation, e.row.usedAt.Some?), phone, lo, hi);
        BudgetUpdate(s.codes, e.i, e.row, phone, lo - CODE_TTL_MS + 1, hi);
        if e.row.phone == phone { ComparedWithin(before, c, e.i, phone, lo); }
      } else {
        assert Log(calls) == Log(before);
        if e.Added? { BudgetAppend(s.codes, e.row, phone, lo - CODE_TTL_MS + 1, hi); }
      }
    }
  }

  /** The guessing rate: over every run in which the phone's calls are in time order, an
      interval of the phone's time holds at most 15 comparisons for each ten-minute window
      needed to cover it and the five minutes before it. */
  lemma {:induction false} GuessRate(calls: seq<Call>, phone: string, lo: int, hi: int, k: nat)
    requires InOrder(calls, phone)
    requires hi - lo + CODE_TTL_MS - 1 < k * (SEND_WINDOW_MS + 1)
    ensures Guesses(Log(calls), phone, lo, hi) <= 15 * k
  {
    var codes := Run(calls).codes;
    var a := lo - CODE_TTL_MS + 1;
    GuessesPaid(calls, phone, lo, hi);
    RowsKept(calls);
    BudgetBound(codes, phone, a, hi);
    SendRate(calls, phone, a, hi, k);
  }

  /** At most 15 comparisons fall in any closed interval of five minutes. */
  lemma {:induction false} GuessLimit(calls: seq<Call>, phone: string, lo: int)
    requires InOrder(calls, phone)
    ensures Guesses(Log(calls), phone, lo, lo + CODE_TTL_MS) <= 15
  {
    GuessRate(calls, phone, lo, lo + CODE_TTL_MS, 1);
  }

  // ---------------------------------------------------------------- single use

  /** A login of the run marked its code as used, and that code was of that generation. */
  lemma {:induction false} LoginsMarked(calls: seq<Call>)
    ensures forall x :: x in Log(calls) && x.matched ==>
              exists c :: c in Run(calls).codes && c.generation == x.generation && c.phone == x.phone && c.usedAt.Some?
  {
    if calls != [] {
      var before, c := calls[..|calls| - 1], calls[|calls| - 1];
      LoginsMarked(before);
      RowsKept(before);
      var s := Run(before);
      var e := EffectOf(s, c);
      forall x | x in Log(calls) && x.matched
        ensures exists r ::
                  r in Run(calls).codes && r.generation == x.generation && r.phone == x.phone && r.usedAt.Some?
      {
        if x in Log(before) {
          var r :| r in s.codes && r.generation == x.generation && r.phone == x.phone && r.usedAt.Some?;
          var j :| 0 <= j < |s.codes| && s.codes[j] == r;
          assert Run(calls).codes[j] in Run(calls).codes;
        } else {
          assert e.Compared?;
          assert Run(calls).codes[e.i] in Run(calls).codes;
        }
      }
    }
  }

  /** A code a login has marked is older than the newest one that can still be compared. */
  lemma UsedIsOlder(s: Store, x: Comparison, i: nat, now: int)
    requires RowsOk(s) && i < |s.codes| && Newest(s.codes, x.phone) == Some(i) && Usable(s.codes[i], now)
    requires exists r :: r in s.codes && r.generation == x.generation && r.phone == x.phone && r.usedAt.Some?
    ensures x.generation < s.codes[i].generation
  {
    var r :| r in s.codes && r.generation == x.generation && r.phone == x.phone && r.usedAt.Some?;
    var k :| 0 <= k < |s.codes| && s.codes[k] == r;
    assert k != i;
    assert s.codes[k].generation <= s.codes[i].generation;
  }

  /** Single use, newest only: once a login has happened with a code, every later comparison
      for that phone is with a newer code. */
  lemma {:induction false} LoginsAreOnce(calls: seq<Call>, i: nat, j: nat)
    requires i < j < |Log(calls)|
    requires Log(calls)[i].matched && Log(calls)[i].phone == Log(calls)[j].phone
    ensures Log(calls)[i].generation < Log(calls)[j].generation
    decreases |calls|
  {
    var before, c := calls[..|calls| - 1], calls[|calls| - 1];
    var s := Run(before);
    if j < |Log(before)| {
      LoginsAreOnce(before, i, j);
    } else {
      LoginsMarked(before);
      RowsKept(before);
      var e := EffectOf(s, c);
      assert Log(calls)[i] == Log(before)[i];
      assert Log(calls)[j] == Comparison(e.row.phone, c.now, e.row.generation, e.row.usedAt.Some?);
      UsedIsOlder(s, Log(before)[i], e.i, c.now);
    }
  }

  // ---------------------------------------------------------------- the bound is reached

  /** n wrong guesses at time 0. */
  function Tries(calls: seq<Call>, raw: string, n: nat): seq<Call> {
    if n == 0 then calls else Tries(calls, raw, n - 1) + [Verify(raw, "b", 0)]
  }

  lemma Append(calls: seq<Call>, c: Call)
    ensures Run(calls + [c]) == Step(Run(calls), c)
    ensures Log(calls + [c]) == Log(calls) + Compares(Run(calls), c)
  {
    assert (calls + [c])[..|calls|] == calls;
  }

  /** A code that can still be tried at time 0. */
  predicate Fresh(row: SmsCode, phone: string) {
    row.phone == phone && row.usedAt.None? && row.expiresAt == CODE_TTL_MS && row.code == "a"
  }

  lemma WrongTry(calls: seq<Call>, raw: string, phone: string, codes: seq<SmsCode>, row: SmsCode)
    requires NormalizePhone(raw) == Some(phone) && Fresh(row, phone) && row.attempts < MAX_VERIFY_ATTEMPTS
    requires Run(calls).codes == codes + [row]
    ensures var after := calls + [Verify(raw, "b", 0)];
            && Run(after).codes == codes + [row.(attempts := row.attempts + 1)]
            && Guesses(Log(after), phone, 0, CODE_TTL_MS) == Guesses(Log(calls), phone, 0, CODE_TTL_MS) + 1
  {
    RowsKept(calls);
    Append(calls, Verify(raw, "b", 0));
    WrongTryFor(Run(calls), phone, codes, row);
    GuessesAppend(Log(calls), Comparison(phone, 0, row.generation, false), phone, 0, CODE_TTL_MS);
  }

  lemma WrongTryFor(s: Store, phone: string, codes: seq<SmsCode>, row: SmsCode)
    requires Fresh(row, phone) && row.attempts < MAX_VERIFY_ATTEMPTS
    requires s.codes == codes + [row] && RowsOk(s)
    ensures VerifyFor(s, phone, "b", 0).0.codes == codes + [row.(attempts := row.attempts + 1)]
    ensures ComparesFor(s, phone, "b", 0) == [Comparison(phone, 0, row.generation, false)]
  {
    var n := |codes|;
    assert s.codes[n] == row && s.codes[..n] == codes;
    assert Newest(s.codes, phone) == Some(n);
    assert s.codes[n := row.(attempts := row.attempts + 1)] == codes + [row.(attempts := row.attempts + 1)];
    assert row.code != "b" by { assert "a"[0] != "b"[0]; }
  }

  /** From one run to a longer one: the codes at its end, and how many guesses were added. */
  ghost predicate Adds(calls: seq<Call>, after: seq<Call>, phone: string, codes: seq<SmsCode>, n: nat) {
    && Run(after).codes == codes
    && Guesses(Log(after), phone, 0, CODE_TTL_MS) == Guesses(Log(calls), phone, 0, CODE_TTL_MS) + n
  }

  lemma TriesOne(calls: seq<Call>, before: seq<Call>, raw: string, phone: string, n: nat,
                 codes: seq<SmsCode>, r: SmsCode)
    requires NormalizePhone(raw) == Some(phone) && Fresh(r, phone) &&
             0 < n <= MAX_VERIFY_ATTEMPTS && r.attempts == n - 1
    requires Adds(calls, before, phone, codes + [r], n - 1)
    ensures Adds(calls, before + [Verify(raw, "b", 0)], phone, codes + [r.(attempts := n)], n)
  {
    hide Run, Log, Guesses, NormalizePhone;
    WrongTry(before, raw, phone, codes, r);
  }

  lemma {:induction false} TriesCount(calls: seq<Call>, raw: string, phone: string, n: nat,
                                      codes: seq<SmsCode>, row: SmsCode)
    requires NormalizePhone(raw) == Some(phone) && Fresh(row, phone) && row.attempts == 0 && n <= MAX_VERIFY_ATTEMPTS
    requires Run(calls).codes == codes + [row]
    ensures Adds(calls, Tries(calls, raw, n), phone, codes + [row.(attempts := n)], n)
  {
    hide Run, Log, Guesses, NormalizePhone;
    if n > 0 {
      var before, r := Tries(calls, raw, n - 1), row.(attempts := n - 1);
      TriesCount(calls, raw, phone, n - 1, codes, row);
      TriesOne(calls, before, raw, phone, n, codes, r);
    } else {
      assert row.(attempts := 0) == row;
    }
  }

  /** A code and m wrong guesses at time 0, n times over. */
  function Rounds(raw: string, n: nat, m: nat): seq<Call> {
    if n == 0 then [] else Tries(Rounds(raw, n - 1, m) + [Request(raw, "a", 0)], raw, m)
  }

  lemma RequestAdds(before: seq<Call>, raw: string, phone: string) returns (row: SmsCode)
    requires NormalizePhone(raw) == Some(phone)
    requires CountSince(Run(before).codes, phone, 0 - SEND_WINDOW_MS) < MAX_SENDS_PER_WINDOW
    ensures Fresh(row, phone) && row.attempts == 0 && row.createdAt == 0
    ensures Adds(before, before + [Request(raw, "a", 0)], phone, Run(before).codes + [row], 0)
  {
    row := SmsCode(Run(before).nextGeneration, phone, "a", 0, CODE_TTL_MS, 0, None);
    Append(before, Request(raw, "a", 0));
    assert Log(before) + [] == Log(before);
  }

  lemma OneRound(before: seq<Call>, raw: string, phone: string, n: nat)
    requires NormalizePhone(raw) == Some(phone) && n == MAX_VERIFY_ATTEMPTS
    requires CountSince(Run(before).codes, phone, 0 - SEND_WINDOW_MS) < MAX_SENDS_PER_WINDOW
    ensures var after := Tries(before + [Request(raw, "a", 0)], raw, n);
            && CountSince(Run(after).codes, phone, 0 - SEND_WINDOW_MS)
            == CountSince(Run(before).codes, phone, 0 - SEND_WINDOW_MS) + 1
            && Guesses(Log(after), phone, 0, CODE_TTL_MS) == Guesses(Log(before), phone, 0, CODE_TTL_MS) + 5
  {
    var codes, middle := Run(before).codes, before + [Request(raw, "a", 0)];
    var row := RequestAdds(before, raw, phone);
    TriesCount(middle, raw, phone, n, codes, row);
    assert (codes + [row.(attempts := n)])[..|codes|] == codes;
  }

  lemma {:induction false} RoundsCount(raw: string, phone: string, n: nat, m: nat, calls: seq<Call>)
    requires NormalizePhone(raw) == Some(phone) && n <= MAX_SENDS_PER_WINDOW && m == MAX_VERIFY_ATTEMPTS
    requires calls == Rounds(raw, n, m)
    ensures CountSince(Run(calls).codes, phone, 0 - SEND_WINDOW_MS) == n
    ensures Guesses(Log(calls), phone, 0, CODE_TTL_MS) == 5 * n
    decreases n
  {
    if n > 0 {
      RoundsCount(raw, phone, n - 1, m, Rounds(raw, n - 1, m));
      OneRound(Rounds(raw, n - 1, m), raw, phone, m);
    }
  }

  lemma {:induction false} TriesAtZero(calls: seq<Call>, raw: string, n: nat)
    requires forall c :: c in calls ==> c.now == 0
    ensures forall c :: c in Tries(calls, raw, n) ==> c.now == 0
  {
    if n > 0 { TriesAtZero(calls, raw, n - 1); }
  }

  lemma {:induction false} RoundsAtZero(raw: string, n: nat, m: nat)
    ensures forall c :: c in Rounds(raw, n, m) ==> c.now == 0
  {
    if n > 0 {
      RoundsAtZero(raw, n - 1, m);
      TriesAtZero(Rounds(raw, n - 1, m) + [Request(raw, "a", 0)], raw, m);
    }
  }

  lemma FullRounds(raw: string, phone: string, n: nat, m: nat)
    requires NormalizePhone(raw) == Some(phone) && n == MAX_SENDS_PER_WINDOW && m == MAX_VERIFY_ATTEMPTS
    ensures var calls := Rounds(raw, n, m);
            InOrder(calls, phone) && Guesses(Log(calls), phone, 0, CODE_TTL_MS) == 15
  {
    RoundsCount(raw, phone, n, m, Rounds(raw, n, m));
    RoundsAtZero(raw, n, m);
  }

  /** The limit of 15 is the best possible: for every phone some run reaches it. */
  lemma {:induction false} GuessLimitReached(raw: string, phone: string)
    requires NormalizePhone(raw) == Some(phone)
    ensures exists calls :: InOrder(calls, phone) && Guesses(Log(calls), phone, 0, CODE_TTL_MS) == 15
  {
    FullRounds(raw, phone, MAX_SENDS_PER_WINDOW, MAX_VERIFY_ATTEMPTS);
  }

  // ---------------------------------------------------------------- phones

  /** However a phone was typed, its stored form is stored as itself. */
  lemma NormalizeStable(raw: string)
    requires NormalizePhone(raw).Some?
    ensures NormalizePhone(NormalizePhone(raw).value) == NormalizePhone(raw)
  {
    var p := NormalizePhone(raw).value;
    assert p[..2] == "+7" && TenDigits(p[2..]);
    forall k | 0 <= k < |p| ensures !IsDropped(p[k]) { if k >= 2 { assert p[k] == p[2..][k - 2]; } }
    CleanedStays(p);
  }

  predicate IsDropped(c: char) { Cleaned([c]) == [] }

  lemma {:induction false} CleanedStays(s: string)
    requires forall k :: 0 <= k < |s| ==> !IsDropped(s[k])
    ensures Cleaned(s) == s
  {
    if s != [] {
      assert !IsDropped(s[0]) && [s[0]][1..] == [];
      CleanedStays(s[1..]);
    }
  }
}
