/** What the CSS rewriting writes: every comment becomes one space and nothing else changes, and
    every declaration comes out once, trimmed and marked. */
module CssOutput {
  import opened JsText
  import opened Options
  import opened Css
  import opened CssLaws
  import opened ImportantLaws

  // ---------------------------------------------------------------- comments

  /** Text before a comment: it holds none, and at its end no string, escape or url is open. */
  ghost predicate Whole(b: bool, q: Option<char>, a: string)
    decreases |a|
  {
    if a == [] then q.None?
    else
      && !(q.None? && StartsComment(a))
      && Firm(b, q, a)
      && var t := Token(b, q, a); Whole(IdentChar(a[t.length - 1]), t.quote, a[t.length..])
  }

  /** The body of a comment: no star-slash in it. */
  predicate IsBody(body: string) { forall k :: 0 <= k < |body| - 1 ==> !(body[k] == '*' && body[k + 1] == '/') }

  /** Whether an identifier character is at the end of the text, given what was before it. */
  predicate IdentEnd(b: bool, a: string) { if a == [] then b else IdentChar(a[|a| - 1]) }

  lemma WholeNothing(b: bool, q: Option<char>)
    ensures Whole(b, q, []) <==> q.None?
  {
  }

  lemma WholeStep(b: bool, q: Option<char>, a: string)
    requires a != []
    ensures Whole(b, q, a) <==>
            && !(q.None? && StartsComment(a)) && Firm(b, q, a)
            && (var t := Token(b, q, a); Whole(IdentChar(a[t.length - 1]), t.quote, a[t.length..]))
  {
    hide Token, Firm, StartsComment, IdentChar;
  }

  /** The text before a comment is copied. */
  lemma {:induction false} WholeCopied(b: bool, q: Option<char>, a: string, x: string)
    requires Whole(b, q, a) && Follows(x)
    ensures Strip(b, q, a + x) == a + Strip(IdentEnd(b, a), None, x)
    decreases |a|
  {
    hide Token, Firm, StartsComment, IdentChar, Whole, Strip;
    if a == [] {
      assert a + x == x;
      WholeNothing(b, q);
    } else {
      WholeStep(b, q, a);
      var t := Token(b, q, a);
      var rest := a[t.length..];
      AppendChunk(b, q, a, x);
      WholeCopied(IdentChar(a[t.length - 1]), t.quote, rest, x);
      StripUnfold(b, q, a + x);
      assert IdentEnd(IdentChar(a[t.length - 1]), rest) == IdentEnd(b, a);
      assert a == t.output + rest;
    }
  }

  /** A comment ends at the first star-slash. */
  lemma {:induction false} BodyCloses(body: string, rest: string)
    requires IsBody(body)
    ensures CloseComment(body + "*/" + rest) == |body| + 2
    ensures CloseComment(body) == |body|
  {
    var s := body + "*/" + rest;
    if body == [] {
      assert s[0] == '*' && s[1] == '/';
    } else {
      assert s[1..] == body[1..] + "*/" + rest;
      assert s[0] == body[0] && s[1] == if |body| > 1 then body[1] else '*';
      forall k | 0 <= k < |body[1..]| - 1 ensures !(body[1..][k] == '*' && body[1..][k + 1] == '/') {
        assert body[1..][k] == body[k + 1] && body[1..][k + 1] == body[k + 2];
      }
      BodyCloses(body[1..], rest);
    }
  }

  lemma CommentSpace(b: bool, body: string, closed: bool, rest: string)
    requires IsBody(body)
    ensures var x := "/*" + body + (if closed then "*/" + rest else "");
            StartsComment(x) && Strip(b, None, x) == " " + (if closed then StripComments(rest) else "")
  {
    hide Strip;
    var x := "/*" + body + (if closed then "*/" + rest else "");
    BodyCloses(body, rest);
    assert x[2..] == if closed then body + "*/" + rest else body;
    var n := CommentLength(x);
    StripUnfold(b, None, x);
    if closed {
      assert x[n..] == rest;
      assert x[n - 1] == '/';
    } else {
      assert x[n..] == [];
      StripNothing(IdentChar(x[n - 1]), None);
    }
  }

  /** Wherever a comment stands, it becomes one space, the text before it is kept, and the text
      after it is stripped by itself; an unclosed comment runs to the end. */
  lemma {:induction false} CommentBecomesSpace(a: string, body: string, closed: bool, rest: string)
    requires Whole(false, None, a) && IsBody(body)
    ensures StripComments(a + ("/*" + body + (if closed then "*/" + rest else "")))
         == a + " " + (if closed then StripComments(rest) else "")
  {
    hide Strip, Whole;
    var x := "/*" + body + (if closed then "*/" + rest else "");
    CommentSpace(IdentEnd(false, a), body, closed, rest);
    WholeCopied(false, None, a, x);
  }

  /** A text with a comment, cut where its first comment starts. */
  lemma {:induction false} FirstComment(b: bool, q: Option<char>, s: string) returns (a: string, x: string)
    requires !CommentFree(b, q, s)
    ensures s == a + x && Whole(b, q, a) && StartsComment(x)
    decreases |s|
  {
    hide Token, Firm, IdentChar, CommentFree, Whole;
    if s == [] {
      NothingIsFree(b, q);
    } else if q.None? && StartsComment(s) {
      a, x := [], s;
      WholeNothing(b, q);
    } else {
      var t := Token(b, q, s);
      if CommentFree(IdentChar(s[t.length - 1]), t.quote, s[t.length..]) { CommentFreeFrom(b, q, s, t); }
      var rest;
      rest, x := FirstComment(IdentChar(s[t.length - 1]), t.quote, s[t.length..]);
      a := s[..t.length] + rest;
      assert s == a + x;
      assert a[t.length..] == rest && a[t.length - 1] == s[t.length - 1];
      TokenCut(b, q, a, x);
      WholeStep(b, q, a);
    }
  }

  /** A comment in its parts. */
  lemma {:induction false} CommentParts(s: string) returns (body: string, closed: bool, rest: string)
    ensures s == body + (if closed then "*/" + rest else "") && IsBody(body)
  {
    if s == [] {
      body, closed, rest := "", false, "";
    } else if |s| >= 2 && s[0] == '*' && s[1] == '/' {
      body, closed, rest := "", true, s[2..];
    } else {
      var inner;
      inner, closed, rest := CommentParts(s[1..]);
      body := [s[0]] + inner;
      forall k | 0 <= k < |body| - 1 ensures !(body[k] == '*' && body[k + 1] == '/') {
        if k > 0 { assert inner[k - 1] == body[k] && inner[k] == body[k + 1]; } else { assert body[1] == s[1]; }
      }
    }
  }

  /** Every text that holds a comment is of that form, so that together with the comment-free texts,
      which are left alone, this says what stripping gives for every text. */
  lemma {:induction false} CommentsBecomeSpaces(css: string)
    returns (a: string, body: string, closed: bool, rest: string)
    requires !CommentFree(false, None, css)
    ensures css == a + ("/*" + body + (if closed then "*/" + rest else "")) && Whole(false, None, a) && IsBody(body)
    ensures StripComments(css) == a + " " + (if closed then StripComments(rest) else "")
  {
    hide Whole, CommentFree, Strip;
    var x;
    a, x := FirstComment(false, None, css);
    body, closed, rest := CommentParts(x[2..]);
    assert x == "/*" + x[2..];
    assert x == "/*" + body + (if closed then "*/" + rest else "");
    CommentBecomesSpace(a, body, closed, rest);
  }

  // ---------------------------------------------------------------- declarations

  /** A declaration that is marked already: an exclamation mark, white space and the word, in any
      case, at its end. */
  ghost predicate Marked(d: string) {
    exists head: string, gap: string, word: string ::
      d == head + "!" + gap + word && AllSpace(gap) && LowerText(word) == "important"
  }

  lemma {:induction false} TrimPad(s: string, gap: string)
    requires s != [] && !IsSpace(s[|s| - 1]) && AllSpace(gap)
    ensures TrimRight(s + gap) == s
    decreases |gap|
  {
    if gap == [] {
      assert s + gap == s;
    } else {
      var n := |gap| - 1;
      assert (s + gap)[..|s| + n] == s + gap[..n];
      TrimPad(s, gap[..n]);
    }
  }

  lemma MarkedIff(d: string)
    ensures EndsImportant(d) <==> Marked(d)
  {
    hide LowerText, TrimRight;
    if EndsImportant(d) {
      var n := |d| - 9;
      var pad := TrimRightSplit(d[..n]);
      var head := TrimRight(d[..n]);
      assert d == head[..|head| - 1] + "!" + pad + d[n..];
    }
    if Marked(d) {
      var head: string, gap: string, word: string :|
        d == head + "!" + gap + word && AllSpace(gap) && LowerText(word) == "important";
      assert d[|d| - 9..] == word && d[..|d| - 9] == head + "!" + gap;
      TrimPad(head + "!", gap);
    }
  }

  /** outs are, in order, exactly one for each of the pieces that is not blank: the piece trimmed, with
      the mark added unless it ends in one. */
  ghost predicate OneEach(outs: seq<string>, pieces: seq<string>) {
    if pieces == [] then outs == []
    else
      var d := Trim(pieces[0]);
      if d == "" then OneEach(outs, pieces[1..])
      else
        && outs != []
        && outs[0] == (if Marked(d) then d else d + " !important")
        && OneEach(outs[1..], pieces[1..])
  }

  lemma {:induction false} DeclarationsOneEach(pieces: seq<string>)
    ensures OneEach(Declarations(pieces), pieces)
    ensures Declarations(pieces) == [] <==> forall p :: p in pieces ==> Trim(p) == ""
  {
    hide Trim, EndsImportant, Marked;
    if pieces != [] {
      DeclarationsOneEach(pieces[1..]);
      var d, more := Trim(pieces[0]), Declarations(pieces[1..]);
      MarkedIff(d);
      assert pieces == [pieces[0]] + pieces[1..];
      if d == "" { assert [] + more == more; } else { assert ([Emit(d)] + more)[1..] == more; }
    }
  }

  /** The result of importantify, read as declarations, holds exactly one for each piece of the
      stripped text that is not blank, in order: that piece trimmed, with the mark added unless it
      ends in one. It is empty exactly if all pieces are blank. */
  lemma {:induction false} ImportantifyMarksEach(css: string)
    ensures var pieces := Split(false, None, 0, StripComments(css));
            && (Importantify(css) == "" <==> forall p :: p in pieces ==> Trim(p) == "")
            && (Importantify(css) != "" ==> OneEach(Split(false, None, 0, Importantify(css)), pieces))
  {
    hide Split, Declarations, OneEach, Trim, CommentFree;
    var pieces := Split(false, None, 0, StripComments(css));
    DeclarationsOneEach(pieces);
    if Importantify(css) == "" {
      StripIdempotent(css);
      EmittedGood(StripComments(css));
      NotJoinedEmpty(Declarations(pieces));
    } else {
      ImportantifyReadsBack(css);
    }
  }

  lemma NotJoinedEmpty(ds: seq<string>)
    requires forall d :: d in ds ==> Finished(d)
    ensures Join(ds) == "" ==> ds == []
  {
    if ds != [] { assert ds[0] in ds && Tight(ds[0]); }
  }
}
