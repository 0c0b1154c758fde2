/** Login by SMS code (apps/api/src/auth/auth.service.ts), beside blocking accounts
    (apps/api/src/admin-users/admin-users.service.ts:36-64). Each transaction holds an advisory
    lock on the phone, so for one phone the calls below happen one after the other. Times are
    milliseconds read inside the transaction; the random code is a parameter. */
module SmsLogin {
  import opened JsText
  import opened Options

  const CODE_TTL_MS := 300_000
  const SEND_WINDOW_MS := 600_000
  const MAX_SENDS_PER_WINDOW := 3
  const MAX_VERIFY_ATTEMPTS := 5

  // ---------------------------------------------------------------- phones

  function Cleaned(raw: string): string {
    if raw == [] then []
    else if IsSpace(raw[0]) || raw[0] in {'-', '(', ')', '.'} then Cleaned(raw[1..])
    else [raw[0]] + Cleaned(raw[1..])
  }

  predicate TenDigits(s: string) {
    |s| == 10 && forall k :: 0 <= k < 10 ==> '0' <= s[k] <= '9'
  }

  /** normalizePhone (apps/api/src/common/phone.ts:1-5) */
  function NormalizePhone(raw: string): Option<string> {
    var c := Cleaned(raw);
    if |c| == 12 && c[..2] == "+7" && TenDigits(c[2..]) then Some("+7" + c[2..])
    else if |c| == 11 && (c[0] == '7' || c[0] == '8') && TenDigits(c[1..]) then Some("+7" + c[1..])
    else None
  }

  // ---------------------------------------------------------------- stored rows

  datatype SmsCode = SmsCode(
    generation: nat, phone: string, code: string, createdAt: int, expiresAt: int,
    attempts: nat, usedAt: Option<int>)

  /** users maps a phone to whether its account is blocked. */
  datatype Store = Store(codes: seq<SmsCode>, users: map<string, bool>, nextGeneration: nat)

  /** How many codes of the phone were created from time `from` on. */
  function CountSince(codes: seq<SmsCode>, phone: string, from: int): nat {
    if codes == [] then 0
    else
      var last := codes[|codes| - 1];
      CountSince(codes[..|codes| - 1], phone, from)
      + if last.phone == phone && last.createdAt >= from then 1 else 0
  }

  /** The position of the phone's code with the greatest generation. */
  function Newest(codes: seq<SmsCode>, phone: string): (r: Option<nat>)
    ensures r.Some? ==> r.value < |codes| && codes[r.value].phone == phone
    ensures r.Some? ==>
      forall k :: 0 <= k < |codes| && codes[k].phone == phone ==> codes[k].generation <= codes[r.value].generation
    ensures r.None? ==> forall k :: 0 <= k < |codes| ==> codes[k].phone != phone
  {
    if codes == [] then None
    else
      var n := |codes| - 1;
      var r := Newest(codes[..n], phone);
      if codes[n].phone == phone && (r.None? || codes[r.value].generation <= codes[n].generation) then Some(n) else r
  }

  /** The newest record can still be compared at time now. */
  predicate Usable(record: SmsCode, now: int) {
    record.usedAt.None? && now < record.expiresAt && record.attempts < MAX_VERIFY_ATTEMPTS
  }

  datatype RequestOutcome = BadRequestPhone | TooManyRequests | CodeSent(to: string, text: string)

  datatype VerifyOutcome = BadVerifyPhone | Unavailable | WrongCode | AccountBlocked | LoggedIn(user: string)

  // ---------------------------------------------------------------- the two transactions

  function AfterRequest(s: Store, rawPhone: string, code: string, now: int): (Store, RequestOutcome) {
    match NormalizePhone(rawPhone)
    case None => (s, BadRequestPhone)
    case Some(phone) => RequestFor(s, phone, code, now)
  }

  /** The transaction of requestCode for a normalized phone. */
  function RequestFor(s: Store, phone: string, code: string, now: int): (Store, RequestOutcome) {
    if CountSince(s.codes, phone, now - SEND_WINDOW_MS) >= MAX_SENDS_PER_WINDOW then (s, TooManyRequests)
    else
      var row := SmsCode(s.nextGeneration, phone, code, now, now + CODE_TTL_MS, 0, None);
      (s.(codes := s.codes + [row], nextGeneration := s.nextGeneration + 1), CodeSent(phone, code))
  }

  function AfterVerify(s: Store, rawPhone: string, code: string, now: int): (Store, VerifyOutcome) {
    match NormalizePhone(rawPhone)
    case None => (s, BadVerifyPhone)
    case Some(phone) => VerifyFor(s, phone, code, now)
  }

  /** The transaction of verifyCode for a normalized phone, and the answer. */
  function VerifyFor(s: Store, phone: string, code: string, now: int): (Store, VerifyOutcome) {
    match Newest(s.codes, phone)
    case None => (s, Unavailable)
    case Some(i) =>
      var record := s.codes[i];
      if !Usable(record, now) then (s, Unavailable)
      else if record.code != code then
        (s.(codes := s.codes[i := record.(attempts := record.attempts + 1)]), WrongCode)
      else
        var users := if phone in s.users then s.users else s.users[phone := false];
        (s.(codes := s.codes[i := record.(usedAt := Some(now))], users := users),
         if users[phone] then AccountBlocked else LoggedIn(phone))
  }

  datatype BlockOutcome = UserUnknown | OperatorKept | BlockStored

  /** block and unblock of the admin users service; operator: the account's role. */
  function AfterSetBlocked(s: Store, phone: string, operator: bool, blocked: bool): (Store, BlockOutcome) {
    if phone !in s.users then (s, UserUnknown)
    else if blocked && operator then (s, OperatorKept)
    else (s.(users := s.users[phone := blocked]), BlockStored)
  }

  class AuthService {
    var codes: seq<SmsCode>
    var users: map<string, bool>
    var nextGeneration: nat

    ghost function Abs(): Store
      reads this
    {
      Store(codes, users, nextGeneration)
    }

    constructor ()
      ensures Abs() == Store([], map[], 0)
    {
      codes, users, nextGeneration := [], map[], 0;
    }

    method RequestCode(rawPhone: string, code: string, now: int) returns (r: RequestOutcome)
      modifies this
      ensures (Abs(), r) == AfterRequest(old(Abs()), rawPhone, code, now)
    {
      var phone := NormalizePhone(rawPhone);
      if phone.None? { return BadRequestPhone; }
      var windowStart := now - SEND_WINDOW_MS;
      var recent := CountSince(codes, phone.value, windowStart);
      if recent >= MAX_SENDS_PER_WINDOW { return TooManyRequests; }
      codes := codes + [SmsCode(nextGeneration, phone.value, code, now, now + CODE_TTL_MS, 0, None)];
      nextGeneration := nextGeneration + 1;
      return CodeSent(phone.value, code);
    }

    method VerifyCode(rawPhone: string, code: string, now: int) returns (r: VerifyOutcome)
      modifies this
      ensures (Abs(), r) == AfterVerify(old(Abs()), rawPhone, code, now)
    {
      var phone := NormalizePhone(rawPhone);
      if phone.None? { return BadVerifyPhone; }
      var found := Newest(codes, phone.value);
      if found.None? { return Unavailable; }
      var i := found.value;
      var record := codes[i];
      if record.usedAt.Some? || record.expiresAt <= now || record.attempts >= MAX_VERIFY_ATTEMPTS {
        return Unavailable;
      }
      if record.code != code {
        codes := codes[i := record.(attempts := record.attempts + 1)];
        return WrongCode;
      }
      codes := codes[i := record.(usedAt := Some(now))];
      if phone.value !in users { users := users[phone.value := false]; }
      if users[phone.value] { return AccountBlocked; }
      return LoggedIn(phone.value);
    }

    /** The write of the admin users service to the same table. */
    method SetBlocked(phone: string, operator: bool, blocked: bool) returns (r: BlockOutcome)
      modifies this
      ensures (Abs(), r) == AfterSetBlocked(old(Abs()), phone, operator, blocked)
    {
      if phone !in users { return UserUnknown; }
      if blocked && operator { return OperatorKept; }
      users := users[phone := blocked];
      return BlockStored;
    }
  }
}
