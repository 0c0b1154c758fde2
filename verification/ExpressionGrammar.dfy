/** A grammar for template expressions, and the proof that the bracket-counting evaluator
    computes the value of the tree on every text the grammar prints. */
module ExpressionGrammar {
  import opened JsText
  import opened Options
  import opened Expressions

  /** A path: a name, then property names after dots or keys in square brackets. */
  datatype Chain =
    | Head(name: string)
    | Dot(base: Chain, key: string)
    | At(base: Chain, left: string, index: Expr, right: string)

  /** Expressions. The string fields called gap, left and right are white space. */
  datatype Expr =
    | Keyword(word: string)
    | Number(digits: string)
    | Quoted(mark: char, body: string)
    | Path(chain: Chain)
    | Not(gap: string, operand: Expr)
    | Paren(left: string, inner: Expr, right: string)
    | Equality(lhs: Expr, gapL: string, negated: bool, strict: bool, gapR: string, rhs: Expr)

  function Symbol(negated: bool, strict: bool): string {
    if negated then if strict then "!==" else "!="
    else if strict then "===" else "=="
  }

  function Print(e: Expr): string
    decreases e
  {
    match e
    case Keyword(w) => w
    case Number(d) => d
    case Quoted(q, b) => [q] + b + [q]
    case Path(c) => PrintChain(c)
    case Not(g, x) => "!" + g + Print(x)
    case Paren(l, x, r) => "(" + (l + Print(x) + r) + ")"
    case Equality(x, gl, n, s, gr, y) => (Print(x) + gl) + Symbol(n, s) + (gr + Print(y))
  }

  function PrintChain(c: Chain): string
    decreases c
  {
    match c
    case Head(n) => n
    case Dot(b, k) => PrintChain(b) + ("." + k)
    case At(b, l, x, r) => PrintChain(b) + ("[" + (l + Print(x) + r) + "]")
  }

  /** The value of a tree: no text, no brackets, no scanning. */
  function Eval<V>(h: Host<V>, vals: V, e: Expr): V
    decreases e
  {
    match e
    case Keyword(w) =>
      if w == "true" then h.boolean(true)
      else if w == "false" then h.boolean(false)
      else if w == "null" then h.nullValue
      else h.undefinedValue
    case Number(d) => h.number(d)
    case Quoted(_, b) => h.text(b)
    case Path(c) => EvalChain(h, vals, c)
    case Not(_, x) => h.boolean(!h.truthy(Eval(h, vals, x)))
    case Paren(_, x, _) => Eval(h, vals, x)
    case Equality(x, _, negated, strict, _, y) =>
      var l, r := Eval(h, vals, x), Eval(h, vals, y);
      if strict then
        if negated then h.boolean(!h.strictlyEqual(l, r)) else h.boolean(h.strictlyEqual(l, r))
      else
        if negated then h.boolean(!h.looselyEqual(l, r)) else h.boolean(h.looselyEqual(l, r))
  }

  /** A property of a value: undefined and null have none. */
  function Property<V>(h: Host<V>, base: V, key: V): V {
    if h.nullish(base) then h.undefinedValue else h.member(base, key)
  }

  function EvalChain<V>(h: Host<V>, vals: V, c: Chain): V
    decreases c
  {
    match c
    case Head(n) => Property(h, vals, h.text(n))
    case Dot(b, k) => Property(h, EvalChain(h, vals, b), h.text(k))
    case At(b, _, x, _) => Property(h, EvalChain(h, vals, b), Eval(h, vals, x))
  }

  /** None of the characters the scanners look at. */
  predicate Plain(s: string) {
    forall k :: 0 <= k < |s| ==> !IsOpening(s[k]) && !IsClosing(s[k]) && !IsEqualityChar(s[k])
  }

  /** A quoted body the scanners pass over: brackets of every kind are balanced in it, and outside
      of them no `=` or `!` is followed by `=`. */
  predicate Inert(q: char, b: string) {
    Balanced(Round, b, 0) && Balanced(Square, b, 0) && Balanced(Both, b, 0) && Quiet(b + [q], 0)
  }

  /** The grammar's side conditions: white space is white space, names are names, quoted
      bodies are inert, equality nests to the right, and the operand of `!` is not an
      equality. */
  predicate WellFormed(e: Expr)
    decreases e
  {
    match e
    case Keyword(w) => w in KEYWORDS
    case Number(d) => IsNumber(d)
    case Quoted(q, b) => (q == '"' || q == '\'') && Inert(q, b)
    case Path(c) => WellFormedChain(c) && (c.Head? ==> c.name !in KEYWORDS)
    case Not(g, x) => AllSpace(g) && !x.Equality? && WellFormed(x)
    case Paren(l, x, r) => AllSpace(l) && AllSpace(r) && WellFormed(x)
    case Equality(x, gl, _, _, gr, y) =>
      AllSpace(gl) && AllSpace(gr) && !x.Equality? && WellFormed(x) && WellFormed(y)
  }

  predicate WellFormedChain(c: Chain)
    decreases c
  {
    match c
    case Head(n) => IsIdent(n)
    case Dot(b, k) => WellFormedChain(b) && (IsIdent(k) || IsDigits(k))
    case At(b, l, x, r) => WellFormedChain(b) && AllSpace(l) && AllSpace(r) && WellFormed(x)
  }

  // ---------------------------------------------------------------- character runs

  lemma {:induction false} PartRun(s: string, t: string)
    requires PartLength(s) == |s|
    requires t == [] || !IsIdentPart(t[0])
    ensures PartLength(s + t) == |s|
    ensures forall k :: 0 <= k < |s| ==> IsIdentPart(s[k])
  {
    if s == [] {
      assert s + t == t;
    } else {
      assert (s + t)[1..] == s[1..] + t;
      PartRun(s[1..], t);
    }
  }

  lemma {:induction false} DigitsRun(s: string, t: string)
    requires DigitsLength(s) == |s|
    requires t == [] || !IsDigit(t[0])
    ensures DigitsLength(s + t) == |s|
    ensures forall k :: 0 <= k < |s| ==> IsDigit(s[k])
  {
    if s == [] {
      assert s + t == t;
    } else {
      assert (s + t)[1..] == s[1..] + t;
      DigitsRun(s[1..], t);
    }
  }

  /** An identifier is matched whole when what follows cannot extend it. */
  lemma IdentRun(s: string, t: string)
    requires IsIdent(s)
    requires t == [] || !IsIdentPart(t[0])
    ensures IdentLength(s + t) == |s|
    ensures forall k :: 0 <= k < |s| ==> IsIdentPart(s[k])
  {
    assert (s + t)[1..] == s[1..] + t;
    PartRun(s[1..], t);
  }

  lemma NameRun(s: string, t: string)
    requires IsIdent(s) || IsDigits(s)
    requires t == [] || !IsIdentPart(t[0])
    ensures NameLength(s + t) == |s|
    ensures forall k :: 0 <= k < |s| ==> IsIdentPart(s[k])
  {
    if IsIdent(s) {
      IdentRun(s, t);
    } else {
      DigitsRun(s, t);
      assert (s + t)[0] == s[0];
    }
  }

  /** A number is a digit or minus sign, then digits and points. */
  lemma NumberCharacters(s: string)
    requires IsNumber(s)
    ensures forall k :: 0 <= k < |s| ==> IsDigit(s[k]) || s[k] == '-' || s[k] == '.'
    ensures IsDigit(s[0]) || s[0] == '-'
    ensures IsDigit(s[|s| - 1])
  {
    var t := if s[0] == '-' then s[1..] else s;
    var n := DigitsLength(t);
    DigitsPrefix(t);
    if n < |t| {
      DigitsRun(t[n + 1..], []);
      assert t[n + 1..] + [] == t[n + 1..];
      forall k | n < k < |t| ensures IsDigit(t[k]) { assert t[k] == t[n + 1..][k - n - 1]; }
      assert t[|t| - 1] == t[n + 1..][|t| - n - 2];
    }
    assert s[|s| - 1] == t[|t| - 1];
    forall k | 0 <= k < |s| ensures IsDigit(s[k]) || s[k] == '-' || s[k] == '.' {
      if s[0] == '-' && k > 0 { assert s[k] == t[k - 1]; }
    }
  }

  lemma {:induction false} DigitsPrefix(s: string)
    ensures forall k :: 0 <= k < DigitsLength(s) ==> IsDigit(s[k])
  {
    if s != [] && IsDigit(s[0]) {
      DigitsPrefix(s[1..]);
      forall k | 0 <= k < DigitsLength(s) ensures IsDigit(s[k]) {
        if k > 0 { assert s[k] == s[1..][k - 1]; }
      }
    }
  }

  // ---------------------------------------------------------------- balance

  /** Which brackets a scanner counts. */
  datatype Brackets = Round | Square | Both
  {
    predicate Up(c: char) { (this != Square && c == '(') || (this != Round && c == '[') }
    predicate Down(c: char) { (this != Square && c == ')') || (this != Round && c == ']') }
  }

  /** From depth d the text never closes a bracket it did not open, and ends at depth 0. */
  predicate Balanced(k: Brackets, s: string, d: nat) {
    if s == [] then d == 0
    else if k.Up(s[0]) then Balanced(k, s[1..], d + 1)
    else if k.Down(s[0]) then d > 0 && Balanced(k, s[1..], d - 1)
    else Balanced(k, s[1..], d)
  }

  lemma {:induction false} BalancedConcat(k: Brackets, s: string, d: nat, t: string, e: nat)
    requires Balanced(k, s, d) && Balanced(k, t, e)
    ensures Balanced(k, s + t, d + e)
    decreases |s|
  {
    if s == [] {
      assert s + t == t;
    } else {
      assert (s + t)[1..] == s[1..] + t;
      var d' := if k.Up(s[0]) then d + 1 else if k.Down(s[0]) then d - 1 else d;
      BalancedConcat(k, s[1..], d', t, e);
    }
  }

  lemma {:induction false} BalancedPlain(k: Brackets, s: string)
    requires Plain(s)
    ensures Balanced(k, s, 0)
  {
    if s != [] { BalancedPlain(k, s[1..]); }
  }

  lemma BalancedWrap(k: Brackets, open: string, s: string, close: string)
    requires (open == "(" && close == ")") || (open == "[" && close == "]")
    requires Balanced(k, s, 0)
    ensures Balanced(k, open + s + close, 0)
  {
    var d := if k.Up(open[0]) then 1 else 0;
    assert Balanced(k, close, d) by { assert close[1..] == []; }
    BalancedConcat(k, s, 0, close, d);
    assert (open + s + close)[1..] == s + close;
  }

  /** Outside every bracket of the text, no `=` or `!` is followed by `=` or ends it. */
  predicate Quiet(s: string, d: nat) {
    if s == [] then d == 0
    else if IsOpening(s[0]) then Quiet(s[1..], d + 1)
    else if IsClosing(s[0]) then d > 0 && Quiet(s[1..], d - 1)
    else
      && (d == 0 && IsEqualityChar(s[0]) ==> |s| > 1 && s[1] != '=')
      && Quiet(s[1..], d)
  }

  lemma {:induction false} QuietConcat(s: string, d: nat, t: string, e: nat)
    requires Quiet(s, d) && Quiet(t, e)
    ensures Quiet(s + t, d + e)
    decreases |s|
  {
    if s == [] {
      assert s + t == t;
    } else {
      assert (s + t)[1..] == s[1..] + t;
      var d' := if IsOpening(s[0]) then d + 1 else if IsClosing(s[0]) then d - 1 else d;
      QuietConcat(s[1..], d', t, e);
    }
  }

  /** Whatever is balanced is quiet one bracket deeper. */
  lemma {:induction false} QuietInside(s: string, d: nat, t: string, e: nat)
    requires Balanced(Both, s, d) && Quiet(t, e) && e > 0
    ensures Quiet(s + t, d + e)
    decreases |s|
  {
    if s == [] {
      assert s + t == t;
    } else {
      assert (s + t)[1..] == s[1..] + t;
      var d' := if IsOpening(s[0]) then d + 1 else if IsClosing(s[0]) then d - 1 else d;
      QuietInside(s[1..], d', t, e);
    }
  }

  lemma {:induction false} QuietPlain(s: string)
    requires Plain(s)
    ensures Quiet(s, 0)
  {
    if s != [] { QuietPlain(s[1..]); }
  }

  lemma QuietWrap(open: string, s: string, close: string)
    requires (open == "(" && close == ")") || (open == "[" && close == "]")
    requires Balanced(Both, s, 0)
    ensures Quiet(open + s + close, 0)
  {
    assert Quiet(close, 1) by { assert close[1..] == []; }
    QuietInside(s, 0, close, 1);
    assert (open + s + close)[1..] == s + close;
  }

  // ---------------------------------------------------------------- shape of printed texts

  /** A printed expression is tight, neither starts nor ends with an equality character other
      than a leading `!`, and is balanced for every scanner. */
  ghost predicate Shaped(p: string) {
    && Tight(p)
    && p[0] != '='
    && !IsEqualityChar(p[|p| - 1])
    && forall k: Brackets :: Balanced(k, p, 0)
  }

  lemma PlainShaped(p: string)
    requires Plain(p) && Tight(p)
    ensures Shaped(p)
  {
    forall k: Brackets ensures Balanced(k, p, 0) { BalancedPlain(k, p); }
  }

  /** A padded shaped text stays balanced. */
  lemma PaddedBalanced(a: string, p: string, b: string)
    requires AllSpace(a) && AllSpace(b) && Shaped(p)
    ensures forall k: Brackets :: Balanced(k, a + p + b, 0)
  {
    forall k: Brackets ensures Balanced(k, a + p + b, 0) {
      BalancedPlain(k, a);
      BalancedPlain(k, b);
      BalancedConcat(k, a, 0, p, 0);
      BalancedConcat(k, a + p, 0, b, 0);
    }
  }

  lemma NotShaped(g: string, x: string)
    requires AllSpace(g) && Shaped(x)
    ensures Shaped("!" + g + x)
  {
    var p := "!" + g + x;
    assert p[|p| - 1] == x[|x| - 1];
    forall k: Brackets ensures Balanced(k, p, 0) {
      BalancedPlain(k, g);
      BalancedConcat(k, g, 0, x, 0);
      assert p[1..] == g + x;
    }
  }

  lemma ParenShaped(l: string, x: string, r: string)
    requires AllSpace(l) && AllSpace(r) && Shaped(x)
    ensures Shaped("(" + (l + x + r) + ")")
  {
    PaddedBalanced(l, x, r);
    forall k: Brackets ensures Balanced(k, "(" + (l + x + r) + ")", 0) {
      BalancedWrap(k, "(", l + x + r, ")");
    }
  }

  lemma EqualityShaped(x: string, gl: string, op: string, gr: string, y: string)
    requires Shaped(x) && Shaped(y) && AllSpace(gl) && AllSpace(gr)
    requires op in {"==", "!=", "===", "!=="}
    ensures Shaped((x + gl) + op + (gr + y))
  {
    var p := (x + gl) + op + (gr + y);
    assert p[0] == x[0];
    assert p[|p| - 1] == y[|y| - 1];
    forall k: Brackets ensures Balanced(k, p, 0) {
      BalancedPlain(k, gl);
      BalancedPlain(k, gr);
      SymbolBalanced(k, op);
      BalancedConcat(k, x, 0, gl, 0);
      BalancedConcat(k, x + gl, 0, op, 0);
      BalancedConcat(k, gr, 0, y, 0);
      BalancedConcat(k, x + gl + op, 0, gr + y, 0);
    }
  }

  lemma SymbolBalanced(k: Brackets, op: string)
    requires op in {"==", "!=", "===", "!=="}
    ensures Balanced(k, op, 0)
  {
    assert Balanced(k, op[2..], 0) by { assert |op[2..]| > 0 ==> op[2..][1..] == []; }
    assert op[1..][1..] == op[2..];
  }

  lemma KeywordPlain(w: string)
    requires w in KEYWORDS
    ensures Plain(w) && Tight(w)
  {
    assert forall k :: 0 <= k < |w| ==> 'a' <= w[k] <= 'z';
  }

  lemma NumberPlain(d: string)
    requires IsNumber(d)
    ensures Plain(d) && Tight(d)
  {
    NumberCharacters(d);
    hide IsNumber;
  }

  lemma QuoteAlone(k: Brackets, q: char)
    requires q == '"' || q == '\''
    ensures Balanced(k, [q], 0) && Quiet([q], 0)
  {
    assert [q][1..] == [];
  }

  /** A body with none of `= ! ( ) [ ]` in particular is inert. */
  lemma PlainIsInert(q: char, b: string)
    requires (q == '"' || q == '\'') && Plain(b)
    ensures Inert(q, b)
  {
    forall k: Brackets ensures Balanced(k, b, 0) { BalancedPlain(k, b); }
    QuietPlain(b + [q]);
  }

  lemma QuotedBalanced(k: Brackets, q: char, b: string)
    requires (q == '"' || q == '\'') && Balanced(k, b, 0)
    ensures Balanced(k, [q] + b + [q], 0)
  {
    QuoteAlone(k, q);
    BalancedConcat(k, [q], 0, b, 0);
    BalancedConcat(k, [q] + b, 0, [q], 0);
  }

  lemma QuotedShaped(q: char, b: string)
    requires (q == '"' || q == '\'') && Inert(q, b)
    ensures Shaped([q] + b + [q])
  {
    forall k: Brackets ensures Balanced(k, [q] + b + [q], 0) { QuotedBalanced(k, q, b); }
    hide Balanced, Quiet;
  }

  lemma QuotedQuiet(q: char, b: string)
    requires (q == '"' || q == '\'') && Inert(q, b)
    ensures Quiet([q] + b + [q], 0)
  {
    QuoteAlone(Both, q);
    QuietConcat([q], 0, b + [q], 0);
    assert [q] + (b + [q]) == [q] + b + [q];
  }

  lemma LeafPlain(e: Expr)
    requires WellFormed(e) && (e.Keyword? || e.Number?)
    ensures Plain(Print(e)) && Tight(Print(e))
  {
    hide IsNumber, Plain, Tight;
    match e
    case Keyword(w) => KeywordPlain(w);
    case Number(d) => NumberPlain(d);
  }

  lemma LeafShaped(e: Expr)
    requires WellFormed(e) && (e.Keyword? || e.Number? || e.Quoted?)
    ensures Shaped(Print(e))
  {
    if e.Quoted? {
      QuotedShaped(e.mark, e.body);
    } else {
      LeafPlain(e);
      hide Plain, Tight, Shaped, WellFormed;
      PlainShaped(Print(e));
    }
  }

  lemma {:induction false} PrintShaped(e: Expr)
    requires WellFormed(e)
    ensures Shaped(Print(e))
    decreases e
  {
    hide PrintChain, Balanced, Shaped;
    match e
    case Keyword(_) => LeafShaped(e);
    case Number(_) => LeafShaped(e);
    case Quoted(_, _) => LeafShaped(e);
    case Path(c) => ChainShaped(c);
    case Not(g, x) =>
      PrintShaped(x);
      NotShaped(g, Print(x));
    case Paren(l, x, r) =>
      PrintShaped(x);
      ParenShaped(l, Print(x), r);
    case Equality(x, gl, n, s, gr, y) =>
      PrintShaped(x);
      PrintShaped(y);
      EqualityShaped(Print(x), gl, Symbol(n, s), gr, Print(y));
  }

  /** What a printed path has beyond Shaped. */
  ghost predicate ChainLike(p: string) {
    Shaped(p) && IsIdentStart(p[0]) && Quiet(p, 0)
  }

  lemma DotChainLike(b: string, k: string)
    requires ChainLike(b) && (IsIdent(k) || IsDigits(k))
    ensures ChainLike(b + ("." + k))
  {
    var p, tail := b + ("." + k), "." + k;
    NameRun(k, []);
    assert Plain(tail);
    QuietPlain(tail);
    QuietConcat(b, 0, tail, 0);
    assert p[|p| - 1] == k[|k| - 1];
    forall q: Brackets ensures Balanced(q, p, 0) {
      BalancedPlain(q, tail);
      BalancedConcat(q, b, 0, tail, 0);
    }
  }

  lemma AtChainLike(b: string, l: string, x: string, r: string)
    requires ChainLike(b) && AllSpace(l) && AllSpace(r) && Shaped(x)
    ensures ChainLike(b + ("[" + (l + x + r) + "]"))
  {
    var key := l + x + r;
    var p := b + ("[" + key + "]");
    PaddedBalanced(l, x, r);
    QuietWrap("[", key, "]");
    QuietConcat(b, 0, "[" + key + "]", 0);
    assert p[|p| - 1] == ']';
    forall q: Brackets ensures Balanced(q, p, 0) {
      BalancedWrap(q, "[", key, "]");
      BalancedConcat(q, b, 0, "[" + key + "]", 0);
    }
  }

  lemma {:induction false} ChainShaped(c: Chain)
    requires WellFormedChain(c)
    ensures ChainLike(PrintChain(c))
    decreases c
  {
    match c
    case Head(n) =>
      IdentRun(n, []);
      PlainShaped(n);
      QuietPlain(n);
    case Dot(b, k) =>
      ChainShaped(b);
      DotChainLike(PrintChain(b), k);
    case At(b, l, x, r) =>
      ChainShaped(b);
      PrintShaped(x);
      AtChainLike(PrintChain(b), l, Print(x), r);
  }

  lemma NotQuiet(g: string, x: string)
    requires AllSpace(g) && Quiet(x, 0) && x != [] && x[0] != '='
    ensures Quiet("!" + g + x, 0)
  {
    QuietPlain(g);
    QuietConcat(g, 0, x, 0);
    assert (g + x)[0] == if g == [] then x[0] else g[0];
    QuietBang(g + x);
    assert "!" + g + x == "!" + (g + x);
  }

  lemma QuietBang(s: string)
    requires Quiet(s, 0) && s != [] && s[0] != '='
    ensures Quiet("!" + s, 0)
  {
    assert ("!" + s)[1..] == s;
  }

  lemma LeafQuiet(e: Expr)
    requires WellFormed(e) && (e.Keyword? || e.Number? || e.Quoted?)
    ensures Quiet(Print(e), 0)
  {
    if e.Quoted? {
      QuotedQuiet(e.mark, e.body);
    } else {
      LeafPlain(e);
      hide Plain, Tight, Quiet, WellFormed;
      QuietPlain(Print(e));
    }
  }

  /** Outside an equality no operator is visible to findTopLevelEquality. */
  lemma {:induction false} PrintQuiet(e: Expr)
    requires WellFormed(e) && !e.Equality?
    ensures Quiet(Print(e), 0)
    decreases e
  {
    hide IsNumber, Plain, Quiet;
    match e
    case Keyword(_) => LeafQuiet(e);
    case Number(_) => LeafQuiet(e);
    case Quoted(_, _) => LeafQuiet(e);
    case Path(c) => ChainShaped(c);
    case Not(g, x) =>
      PrintShaped(x);
      PrintQuiet(x);
      NotQuiet(g, Print(x));
    case Paren(l, x, r) =>
      PrintShaped(x);
      PaddedBalanced(l, Print(x), r);
      QuietWrap("(", l + Print(x) + r, ")");
  }

  /** Outside an equality, only a parenthesised expression starts with `(`. */
  lemma FirstRound(e: Expr)
    requires WellFormed(e) && !e.Equality?
    ensures Print(e) != "" && (Print(e)[0] == '(' ==> e.Paren?)
  {
    PrintShaped(e);
    if e.Number? { NumberCharacters(e.digits); }
    if e.Path? { ChainShaped(e.chain); }
  }

  // ---------------------------------------------------------------- the scanners on balanced texts

  /** parensWrapWhole passes over a balanced segment inside a bracket. */
  lemma {:induction false} WrapsSkip(expr: string, i: nat, j: nat, b: nat, d: int)
    requires i <= j < |expr| && d >= 1
    requires Balanced(Round, expr[i..j], b)
    ensures WrapsFrom(expr, i, d + b) == WrapsFrom(expr, j, d)
    decreases j - i
  {
    if i < j {
      var s := expr[i..j];
      assert s[0] == expr[i] && s[1..] == expr[i + 1..j];
      var b' := if Round.Up(s[0]) then b + 1 else if Round.Down(s[0]) then b - 1 else b;
      WrapsSkip(expr, i + 1, j, b', d);
    }
  }

  /** findTopLevelEquality finds nothing in a balanced segment inside a bracket. */
  lemma {:induction false} EqualitySkip(expr: string, i: nat, j: nat, d: nat)
    requires i <= j <= |expr|
    requires Quiet(expr[i..j], d)
    requires j < |expr| ==> expr[j] != '=' || j == i || !IsEqualityChar(expr[j - 1])
    ensures EqualityFrom(expr, i, d) == EqualityFrom(expr, j, 0)
    decreases j - i
  {
    if i < j {
      var s := expr[i..j];
      assert s[0] == expr[i] && s[1..] == expr[i + 1..j];
      var d' := if IsOpening(s[0]) then d + 1 else if IsClosing(s[0]) then d - 1 else d;
      if i + 1 < j { assert s[1] == expr[i + 1]; }
      EqualitySkip(expr, i + 1, j, d');
    }
  }

  /** The inner loop of resolvePath passes over a balanced segment. */
  lemma {:induction false} CloserSkip(expr: string, i: nat, j: nat, b: nat)
    requires i <= j <= |expr|
    requires Balanced(Square, expr[i..j], b)
    ensures CloserFrom(expr, i, 1 + b) == CloserFrom(expr, j, 1)
    decreases j - i
  {
    if i < j {
      var s := expr[i..j];
      assert s[0] == expr[i] && s[1..] == expr[i + 1..j];
      var b' := if Square.Up(s[0]) then b + 1 else if Square.Down(s[0]) then b - 1 else b;
      CloserSkip(expr, i + 1, j, b');
    }
  }

  /** A quiet text holds no top-level operator. */
  lemma NoOperator(p: string)
    requires Quiet(p, 0)
    ensures EqualityFrom(p, 0, 0) == None
  {
    assert p[0..|p|] == p;
    EqualitySkip(p, 0, |p|, 0);
  }

  /** The operator between two printed operands is the one found. */
  lemma OperatorFound(x: string, negated: bool, strict: bool, y: string)
    requires Quiet(x, 0) && x != [] && !IsEqualityChar(x[|x| - 1]) && !IsSpace(x[0])
    requires y != [] && y[0] != '='
    ensures EqualityFrom(x + Symbol(negated, strict) + y, 0, 0)
         == Some(Operator(|x|, negated, strict))
  {
    var op := Symbol(negated, strict);
    var expr := x + op + y;
    assert expr[0..|x|] == x;
    EqualitySkip(expr, 0, |x|, 0);
    assert expr[..|x|] == x;
    assert expr[|x|] == op[0] && expr[|x| + 1] == op[1];
    assert expr[|x| + 2] == if strict then op[2] else y[0];
    assert Trim(x) != "" by {
      assert TrimLeft(x) == x;
      KeepsFirst(x);
    }
  }

  lemma {:induction false} KeepsFirst(x: string)
    requires x != [] && !IsSpace(x[0])
    ensures TrimRight(x) != ""
    decreases |x|
  {
    if IsSpace(x[|x| - 1]) {
      assert x[..|x| - 1][0] == x[0];
      KeepsFirst(x[..|x| - 1]);
    }
  }

  // ---------------------------------------------------------------- the main result

  /** On every text the grammar prints, with any white space around it, the evaluator returns
      the value of the tree. */
  lemma {:induction false} ResolvePrinted<V>(h: Host<V>, vals: V, a: string, e: Expr, b: string)
    requires WellFormed(e) && AllSpace(a) && AllSpace(b)
    ensures Resolve(h, vals, a + Print(e) + b) == Eval(h, vals, e)
    decreases e, 1
  {
    PrintShaped(e);
    TrimPadded(a, Print(e), b);
    match e
    case Paren(_, _, _) => ResolveParen(h, vals, e);
    case Equality(_, _, _, _, _, _) => ResolveEquality(h, vals, e);
    case Not(_, _) => ResolveNot(h, vals, e);
    case _ => ResolveLeaf(h, vals, e);
  }

  lemma {:induction false} ResolveParen<V>(h: Host<V>, vals: V, e: Expr)
    requires WellFormed(e) && e.Paren?
    ensures ResolveTrimmed(h, vals, Print(e)) == Eval(h, vals, e)
    decreases e, 0
  {
    var p := Print(e);
    var inside := e.left + Print(e.inner) + e.right;
    PrintShaped(e.inner);
    PaddedBalanced(e.left, Print(e.inner), e.right);
    assert p[1..|p| - 1] == inside;
    WrapsSkip(p, 1, |p| - 1, 0, 1);
    ResolvePrinted(h, vals, e.left, e.inner, e.right);
  }

  lemma {:induction false} ResolveEquality<V>(h: Host<V>, vals: V, e: Expr)
    requires WellFormed(e) && e.Equality?
    ensures ResolveTrimmed(h, vals, Print(e)) == Eval(h, vals, e)
    decreases e, 0
  {
    hide WrapsFrom, EqualityFrom, Print, Resolve, ResolveTrimmed, IsNumber, Inert, Plain;
    var l, r := Print(e.lhs) + e.gapL, e.gapR + Print(e.rhs);
    EqualityFound(e, l, r);
    NotWrapped(e);
    assert [] + Print(e.lhs) + e.gapL == l;
    assert e.gapR + Print(e.rhs) + [] == r;
    ResolvePrinted(h, vals, [], e.lhs, e.gapL);
    ResolvePrinted(h, vals, e.gapR, e.rhs, []);
    ResolveCompared(h, vals, Print(e), Operator(|l|, e.negated, e.strict), l, r);
  }

  /** The evaluator compares what is on both sides of the operator found. */
  lemma ResolveCompared<V>(h: Host<V>, vals: V, p: string, op: Operator, l: string, r: string)
    requires p != "" && (p[0] == '(' ==> !WrapsFrom(p, 0, 0)) && EqualityFrom(p, 0, 0) == Some(op)
    requires l == p[..op.index] && r == p[op.index + op.Width()..]
    ensures ResolveTrimmed(h, vals, p) == h.Compare(op.negated, op.strict, Resolve(h, vals, l), Resolve(h, vals, r))
  {
    hide WrapsFrom, EqualityFrom, Resolve;
  }

  /** Where the operator of a printed equality is. */
  lemma EqualityFound(e: Expr, l: string, r: string)
    requires WellFormed(e) && e.Equality? && l == Print(e.lhs) + e.gapL && r == e.gapR + Print(e.rhs)
    ensures var p, op := Print(e), Operator(|l|, e.negated, e.strict);
            && EqualityFrom(p, 0, 0) == Some(op)
            && |l| + op.Width() <= |p| && p[..|l|] == l && p[|l| + op.Width()..] == r
  {
    hide IsNumber;
    hide EqualityFrom, Balanced, Quiet, PrintChain;
    var p, op := Print(e), Symbol(e.negated, e.strict);
    PrintShaped(e.lhs);
    PrintShaped(e.rhs);
    PrintQuiet(e.lhs);
    QuietPlain(e.gapL);
    QuietConcat(Print(e.lhs), 0, e.gapL, 0);
    assert l[0] == Print(e.lhs)[0];
    assert l[|l| - 1] == if e.gapL == [] then Print(e.lhs)[|Print(e.lhs)| - 1] else e.gapL[|e.gapL| - 1];
    assert r[0] == if e.gapR == [] then Print(e.rhs)[0] else e.gapR[0];
    assert p == l + op + r;
    OperatorFound(l, e.negated, e.strict, r);
    assert p[..|l|] == l && p[|l| + |op|..] == r;
  }

  /** An equality is never mistaken for one parenthesised expression. */
  lemma NotWrapped(e: Expr)
    requires WellFormed(e) && e.Equality?
    ensures var p := Print(e); p != "" && (p[0] == '(' ==> !WrapsFrom(p, 0, 0))
  {
    hide Quiet, IsNumber;
    var p, x := Print(e), Print(e.lhs);
    PrintShaped(e.lhs);
    PrintShaped(e.rhs);
    assert p[0] == x[0];
    if p[0] == '(' {
      FirstRound(e.lhs);
      var inside := e.lhs.left + Print(e.lhs.inner) + e.lhs.right;
      PrintShaped(e.lhs.inner);
      PaddedBalanced(e.lhs.left, Print(e.lhs.inner), e.lhs.right);
      assert x == "(" + inside + ")";
      assert p[..|x|] == x;
      assert p[1..|x| - 1] == x[1..|x| - 1] == inside;
      assert p[|x| - 1] == ')';
      WrapsSkip(p, 1, |x| - 1, 0, 1);
    }
  }

  lemma {:induction false} ResolveNot<V>(h: Host<V>, vals: V, e: Expr)
    requires WellFormed(e) && e.Not?
    ensures ResolveTrimmed(h, vals, Print(e)) == Eval(h, vals, e)
    decreases e, 0
  {
    var p := Print(e);
    PrintQuiet(e);
    NoOperator(p);
    assert p[1..] == e.gap + Print(e.operand) + [];
    ResolvePrinted(h, vals, e.gap, e.operand, []);
  }

  lemma {:induction false} ResolveLeaf<V>(h: Host<V>, vals: V, e: Expr)
    requires WellFormed(e) && !e.Paren? && !e.Equality? && !e.Not?
    ensures ResolveTrimmed(h, vals, Print(e)) == Eval(h, vals, e)
    decreases e, 0
  {
    var p := Print(e);
    PrintShaped(e);
    PrintQuiet(e);
    NoOperator(p);
    FirstRound(e);
    AtomText(e);
    assert ResolveTrimmed(h, vals, p) == ResolveAtom(h, vals, p);
    if e.Path? {
      var n := ChainFrom(h, vals, e.chain, []);
      assert p + [] == p;
      var v := EvalChain(h, vals, e.chain);
      assert PathFrom(h, vals, p, |p|, v) == v;
      assert PathValue(h, vals, p) == v;
      assert ResolveAtom(h, vals, p) == PathValue(h, vals, p);
    }
  }

  /** How the tests of resolve classify the text of a leaf. */
  lemma AtomText(e: Expr)
    requires WellFormed(e) && !e.Paren? && !e.Equality? && !e.Not?
    ensures var p := Print(e);
            && p != "" && p[0] != '!'
            && (e.Keyword? <==> p in KEYWORDS)
            && (e.Number? <==> IsNumber(p))
            && (e.Quoted? <==> p[0] == '"' || p[0] == '\'')
            && (e.Quoted? ==> |p| >= 2 && p[|p| - 1] == p[0] && p[1..|p| - 1] == e.body)
  {
    var p := Print(e);
    match e
    case Keyword(w) => LetterFirst(w);
    case Number(d) => NumberCharacters(d);
    case Quoted(q, b) => QuotedText(q, b);
    case Path(c) =>
      ChainShaped(c);
      ChainNotKeyword(c);
      LetterFirst(p);
  }

  /** A text starting with a letter is no number and no quoted text. */
  lemma LetterFirst(p: string)
    requires p in KEYWORDS || (p != "" && IsIdentStart(p[0]))
    ensures p != "" && p[0] != '!' && p[0] != '"' && p[0] != '\'' && !IsNumber(p)
  {
    if IsNumber(p) { NumberCharacters(p); }
  }

  lemma QuotedText(q: char, b: string)
    requires q == '"' || q == '\''
    ensures var p := [q] + b + [q];
            && |p| >= 2 && p[0] == q && p[|p| - 1] == q && p[1..|p| - 1] == b
            && p !in KEYWORDS && !IsNumber(p)
  {
    var p := [q] + b + [q];
    if IsNumber(p) { NumberCharacters(p); }
  }

  /** A path longer than one name is not a keyword. */
  lemma ChainNotKeyword(c: Chain)
    requires WellFormedChain(c) && (c.Head? ==> c.name !in KEYWORDS)
    ensures PrintChain(c) !in KEYWORDS
  {
    hide IdentLength;
    if !c.Head? {
      var p, n := PrintChain(c), |PrintChain(c.base)|;
      assert p[n] == if c.Dot? then '.' else '[';
      assert forall w, k :: w in KEYWORDS && 0 <= k < |w| ==> w[k] != '.' && w[k] != '[';
    }
  }

  /** resolvePath, started after the first name, reaches the end of a printed path with the
      value of the path. n is the length of the first name. */
  lemma {:induction false} ChainFrom<V>(h: Host<V>, vals: V, c: Chain, rest: string) returns (n: nat)
    requires WellFormedChain(c)
    requires rest == [] || rest[0] == '.' || rest[0] == '['
    ensures Reaches(h, vals, n, PrintChain(c), rest, EvalChain(h, vals, c))
    decreases c, 0
  {
    match c
    case Head(name) =>
      IdentRun(name, rest);
      n := |name|;
      assert (name + rest)[..n] == name;
    case Dot(b, k) =>
      n := ChainFrom(h, vals, b, "." + k + rest);
      ReachesDot(h, vals, n, PrintChain(b), k, rest, EvalChain(h, vals, b));
    case At(b, l, x, r) =>
      var key := l + Print(x) + r;
      n := ChainFrom(h, vals, b, "[" + key + "]" + rest);
      PrintShaped(x);
      PaddedBalanced(l, Print(x), r);
      ResolvePrinted(h, vals, l, x, r);
      ReachesAt(h, vals, n, PrintChain(b), key, rest, EvalChain(h, vals, b));
  }

  /** On text + rest, resolvePath passes from the end of the first name (length n) to the end
      of text, where it holds value v. */
  ghost predicate Reaches<V>(h: Host<V>, vals: V, n: nat, text: string, rest: string, v: V) {
    var p := text + rest;
    && 0 < n <= |text| && n == IdentLength(p)
    && PathFrom(h, vals, p, n, h.Lookup(vals, h.text(p[..n]))) == PathFrom(h, vals, p, |text|, v)
  }

  lemma ReachesDot<V>(h: Host<V>, vals: V, n: nat, base: string, k: string, rest: string, v: V)
    requires Reaches(h, vals, n, base, "." + k + rest, v)
    requires IsIdent(k) || IsDigits(k)
    requires rest == [] || rest[0] == '.' || rest[0] == '['
    ensures Reaches(h, vals, n, base + ("." + k), rest, h.Lookup(v, h.text(k)))
  {
    hide Resolve, IdentLength;
    var p := base + ("." + k) + rest;
    assert base + ("." + k + rest) == p;
    assert p[|base| + 1..] == k + rest;
    NameRun(k, rest);
    assert p[|base| + 1..|base| + 1 + |k|] == k;
  }

  lemma ReachesAt<V>(h: Host<V>, vals: V, n: nat, base: string, key: string, rest: string, v: V)
    requires Reaches(h, vals, n, base, "[" + key + "]" + rest, v)
    requires Balanced(Square, key, 0)
    ensures Reaches(h, vals, n, base + ("[" + key + "]"), rest, h.Lookup(v, Resolve(h, vals, key)))
  {
    hide Resolve, PartLength, Balanced;
    var p := base + ("[" + key + "]") + rest;
    assert base + ("[" + key + "]" + rest) == p;
    var j := |base| + 1 + |key|;
    assert p[|base| + 1..j] == key;
    assert p[j] == ']';
    CloserSkip(p, |base| + 1, j, 0);
  }

  // ---------------------------------------------------------------- operators and steps

  /** The four operators between any two operands of the grammar. */
  lemma {:induction false} OperatorsMean<V>(h: Host<V>, vals: V, x: Expr, gl: string, gr: string, y: Expr)
    requires WellFormed(x) && !x.Equality? && WellFormed(y) && AllSpace(gl) && AllSpace(gr)
    ensures var l, r := Resolve(h, vals, Print(x)), Resolve(h, vals, Print(y));
            && Resolve(h, vals, Print(x) + gl + "===" + gr + Print(y)) == h.boolean(h.strictlyEqual(l, r))
            && Resolve(h, vals, Print(x) + gl + "!==" + gr + Print(y)) == h.boolean(!h.strictlyEqual(l, r))
            && Resolve(h, vals, Print(x) + gl + "==" + gr + Print(y)) == h.boolean(h.looselyEqual(l, r))
            && Resolve(h, vals, Print(x) + gl + "!=" + gr + Print(y)) == h.boolean(!h.looselyEqual(l, r))
  {
    hide Resolve, Print, WellFormed, Eval;
    ResolveAlone(h, vals, x);
    ResolveAlone(h, vals, y);
    EqualityText(h, vals, x, gl, false, true, gr, y);
    EqualityText(h, vals, x, gl, true, true, gr, y);
    EqualityText(h, vals, x, gl, false, false, gr, y);
    EqualityText(h, vals, x, gl, true, false, gr, y);
  }

  lemma {:induction false} ResolveAlone<V>(h: Host<V>, vals: V, e: Expr)
    requires WellFormed(e)
    ensures Resolve(h, vals, Print(e)) == Eval(h, vals, e)
  {
    hide Resolve, Print, WellFormed, Eval;
    ResolvePrinted(h, vals, [], e, []);
    assert [] + Print(e) + [] == Print(e);
  }

  lemma {:induction false} EqualityText<V>(
    h: Host<V>, vals: V, x: Expr, gl: string, negated: bool, strict: bool, gr: string, y: Expr)
    requires WellFormed(x) && !x.Equality? && WellFormed(y) && AllSpace(gl) && AllSpace(gr)
    ensures var l, r := Eval(h, vals, x), Eval(h, vals, y);
            var same := if strict then h.strictlyEqual(l, r) else h.looselyEqual(l, r);
            Resolve(h, vals, Print(x) + gl + Symbol(negated, strict) + gr + Print(y)) == h.boolean(same != negated)
  {
    hide Resolve, Symbol;
    var e := Equality(x, gl, negated, strict, gr, y);
    ResolveAlone(h, vals, e);
    assert Print(e) == Print(x) + gl + Symbol(negated, strict) + gr + Print(y);
  }

  /** A name, a dot and a bracket: the property of what comes before, and undefined when that is
      null or undefined. */
  lemma {:induction false} StepsMean<V>(
    h: Host<V>, vals: V, name: string, c: Chain, key: string, left: string, x: Expr, right: string)
    requires IsIdent(name) && name !in KEYWORDS && WellFormed(x) && AllSpace(left) && AllSpace(right)
    requires WellFormedChain(c) && (c.Head? ==> c.name !in KEYWORDS) && (IsIdent(key) || IsDigits(key))
    ensures Resolve(h, vals, name) == if h.nullish(vals) then h.undefinedValue else h.member(vals, h.text(name))
    ensures var base, inner := Resolve(h, vals, PrintChain(c)), Resolve(h, vals, Print(x));
            && Resolve(h, vals, PrintChain(c) + "." + key)
               == (if h.nullish(base) then h.undefinedValue else h.member(base, h.text(key)))
            && Resolve(h, vals, PrintChain(c) + "[" + left + Print(x) + right + "]")
               == (if h.nullish(base) then h.undefinedValue else h.member(base, inner))
  {
    hide Resolve, IsIdent, IsDigits;
    ResolveAlone(h, vals, Path(Head(name)));
    ResolveAlone(h, vals, Path(c));
    ResolveAlone(h, vals, x);
    ResolveAlone(h, vals, Path(Dot(c, key)));
    ResolveAlone(h, vals, Path(At(c, left, x, right)));
    assert PrintChain(Dot(c, key)) == PrintChain(c) + "." + key;
    assert PrintChain(At(c, left, x, right)) == PrintChain(c) + "[" + left + Print(x) + right + "]";
  }

  // ---------------------------------------------------------------- quoted operators

  /** The scanners do not know quotes. A quoted text alone evaluates to its body exactly when
      findTopLevelEquality finds no operator in it, for every host whose texts are not
      booleans. */
  lemma QuotedIff<V(!new)>(h: Host<V>, vals: V, q: char, b: string)
    requires q == '"' || q == '\''
    requires forall x, t :: h.boolean(x) != h.text(t)
    ensures var p := [q] + b + [q];
            Resolve(h, vals, p) == h.text(b) <==> EqualityFrom(p, 0, 0).None?
  {
    hide PathValue, IsNumber;
    var p := [q] + b + [q];
    QuotedText(q, b);
    TrimPadded("", p, "");
    assert "" + p + "" == p;
    assert Resolve(h, vals, p) == ResolveTrimmed(h, vals, p);
    match EqualityFrom(p, 0, 0)
    case None => assert ResolveAtom(h, vals, p) == h.text(b);
    case Some(op) =>
      var l := Resolve(h, vals, p[..op.index]);
      var r := Resolve(h, vals, p[op.index + op.Width()..]);
      assert ResolveTrimmed(h, vals, p) == h.Compare(op.negated, op.strict, l, r);
      var same := if op.strict then h.strictlyEqual(l, r) else h.looselyEqual(l, r);
      assert h.boolean(if op.negated then !same else same) != h.text(b);
  }

  /** One that does have an operator: the text is cut in the middle and compared. */
  lemma QuotedOperator()
    ensures EqualityFrom("'a==b'", 0, 0) == Some(Operator(2, false, false))
  {
    var p := "'a==b'";
    assert p[..2] == "'a";
    KeepsFirst(p[..2]);
    assert EqualityFrom(p, 2, 0) == Some(Operator(2, false, false));
    assert EqualityFrom(p, 1, 0) == EqualityFrom(p, 2, 0);
  }
}
