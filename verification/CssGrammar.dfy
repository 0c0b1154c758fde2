/** Inline CSS as a list of segments: plain text, strings, urls without and with quotes (the latter
    up to the closing bracket), comments, brackets and semicolons. On every text so written the
    scanners see these segments and nothing else: comments are replaced, and semicolons outside
    brackets cut, wherever marks, brackets, semicolons or comment signs stand inside strings and
    urls. */
module CssGrammar {
  import opened JsText
  import opened Options
  import opened Css
  import opened CssLaws
  import opened CssOutput

  datatype Segment =
    | Plain(text: string)
    | Str(mark: char, body: string)
    | Url(word: string, gap: string, body: string)
    | QuotedUrl(word: string, gap: string, mark: char, body: string)
    | Note(body: string)
    | Open
    | Close
    | Semi

  function Text(g: Segment): string {
    match g
    case Plain(t) => t
    case Str(q, b) => [q] + b + [q]
    case Url(w, s, b) => w + "(" + s + b + ")"
    case QuotedUrl(w, s, q, b) => w + ("(" + s) + ([q] + b + [q])
    case Note(b) => "/*" + b + "*/"
    case Open => "("
    case Close => ")"
    case Semi => ";"
  }

  /** A comment is written as one space. */
  function Written(g: Segment): string { if g.Note? then " " else Text(g) }

  function Print(gs: seq<Segment>): string { if gs == [] then "" else Text(gs[0]) + Print(gs[1..]) }

  function PrintWritten(gs: seq<Segment>): string { if gs == [] then "" else Written(gs[0]) + PrintWritten(gs[1..]) }

  /** No unescaped end character, and no escape without its character. */
  predicate Encloses(end: char, body: string) {
    if body == [] then true
    else if body[0] == '\\' then |body| >= 2 && Encloses(end, body[2..])
    else body[0] != end && Encloses(end, body[1..])
  }

  predicate IsUrlWord(w: string) {
    |w| == 3 && LowerChar(w[0]) == 'u' && LowerChar(w[1]) == 'r' && LowerChar(w[2]) == 'l'
  }

  /** Characters that start nothing else, and no comment sign. */
  predicate IsPlain(t: string) {
    && (forall k :: 0 <= k < |t| ==> !IsMark(t[k]) && t[k] != '(' && t[k] != ')' && t[k] != ';')
    && (forall k :: 0 <= k < |t| - 1 ==> !(t[k] == '/' && t[k + 1] == '*'))
  }

  /** The text does not end in the word url on its own. */
  predicate NoUrlAtEnd(b: bool, t: string)
    decreases |t|
  {
    t == [] || (!(!b && IsUrlWord(t)) && NoUrlAtEnd(IdentChar(t[0]), t[1..]))
  }

  /** b: an identifier character comes before; next: what comes after. */
  predicate IsSegment(b: bool, g: Segment, next: Option<Segment>) {
    match g
    case Plain(t) =>
      && t != [] && IsPlain(t)
      && (next.Some? ==> !next.value.Plain? && (next.value.Open? ==> NoUrlAtEnd(b, t)))
    case Str(q, body) => IsMark(q) && Encloses(q, body)
    case Url(w, gap, body) =>
      && !b && IsUrlWord(w) && AllSpace(gap) && Encloses(')', body)
      && (body != [] ==> !IsMark(body[0]) && !IsSpace(body[0]))
    case QuotedUrl(w, gap, q, body) => IsUrlWord(w) && AllSpace(gap) && IsMark(q) && Encloses(q, body)
    case Note(body) => IsBody(body)
    case _ => true
  }

  predicate IdentAfter(g: Segment) { g.Plain? && g.text != [] && IdentChar(g.text[|g.text| - 1]) }

  predicate WellFormed(b: bool, gs: seq<Segment>)
    decreases |gs|
  {
    gs == [] ||
    ( && IsSegment(b, gs[0], if |gs| > 1 then Some(gs[1]) else None)
      && WellFormed(IdentAfter(gs[0]), gs[1..]))
  }

  // ---------------------------------------------------------------- strings and urls

  /** A string is walked to its end. */
  lemma {:induction false} StringStripped(b: bool, q: char, body: string, rest: string)
    requires IsMark(q) && Encloses(q, body)
    ensures Strip(b, Some(q), body + [q] + rest) == body + [q] + Strip(false, None, rest)
    decreases |body|
  {
    hide Strip, UrlLength;
    var s := body + [q] + rest;
    StripUnfold(b, Some(q), s);
    if body == [] {
      assert s[0] == q && s[1..] == rest && s[..1] == [q];
      assert !IdentChar(q);
    } else if body[0] == '\\' {
      assert s[..2] == body[..2] && s[2..] == body[2..] + [q] + rest && s[0] == body[0] && s[1] == body[1];
      StringStripped(IdentChar(s[1]), q, body[2..], rest);
      assert body == body[..2] + body[2..];
    } else {
      assert s[..1] == body[..1] && s[1..] == body[1..] + [q] + rest && s[0] == body[0];
      StringStripped(IdentChar(s[0]), q, body[1..], rest);
      assert body == body[..1] + body[1..];
    }
  }

  lemma StrStripped(b: bool, g: Segment, rest: string)
    requires g.Str? && IsMark(g.mark) && Encloses(g.mark, g.body)
    ensures Strip(b, None, Text(g) + rest) == Text(g) + Strip(false, None, rest)
  {
    hide Strip, UrlLength, Encloses;
    var q := g.mark;
    MarkStripped(b, q, g.body + [q] + rest);
    StringStripped(false, q, g.body, rest);
    assert Text(g) + rest == [q] + (g.body + [q] + rest);
    assert Text(g) + Strip(false, None, rest) == [q] + (g.body + [q] + Strip(false, None, rest));
  }

  /** A quotation mark opens a string. */
  lemma MarkStripped(b: bool, q: char, rest: string)
    requires IsMark(q)
    ensures Strip(b, None, [q] + rest) == [q] + Strip(false, Some(q), rest)
  {
    hide Strip, UrlLength;
    var s := [q] + rest;
    StripUnfold(b, None, s);
    assert s[0] == q && s[..1] == [q] && s[1..] == rest;
    assert !IdentChar(q);
  }

  /** The end of a url body is where it says. */
  lemma {:induction false} BodyEnds(body: string, rest: string)
    requires Encloses(')', body)
    ensures BodyEnd(body + ")" + rest) == Some(|body| + 1)
    decreases |body|
  {
    var s := body + ")" + rest;
    if body == [] {
      assert s[0] == ')';
    } else if body[0] == '\\' {
      assert s[0] == body[0] && s[2..] == body[2..] + ")" + rest;
      BodyEnds(body[2..], rest);
    } else {
      assert s[0] == body[0] && s[1..] == body[1..] + ")" + rest;
      BodyEnds(body[1..], rest);
    }
  }

  lemma {:induction false} GapLength(gap: string, s: string)
    requires AllSpace(gap) && (s == [] || !IsSpace(s[0]))
    ensures SpaceLength(gap + s) == |gap|
  {
    if gap == [] {
      assert gap + s == s;
    } else {
      assert (gap + s)[0] == gap[0] && (gap + s)[1..] == gap[1..] + s;
      GapLength(gap[1..], s);
    }
  }

  /** A url is one chunk. */
  lemma UrlSeen(g: Segment, rest: string)
    requires g.Url? && IsSegment(false, g, None)
    ensures UrlLength(false, Text(g) + rest) == |Text(g)|
    ensures (Text(g) + rest)[0] != '/' && !IsMark((Text(g) + rest)[0])
  {
    hide BodyEnd, SpaceLength, Encloses, UrlLength, IsSpace, IsMark;
    var s, tail := Text(g) + rest, g.body + ")" + rest;
    assert s == g.word + "(" + (g.gap + tail);
    assert tail[0] == if g.body == [] then ')' else g.body[0];
    ClosingIsPlain();
    BodyEnds(g.body, rest);
    UrlMeasured(g.word, g.gap, tail, |g.body| + 1);
    assert s[0] == g.word[0];
    WordIsPlain(g.word);
  }

  lemma ClosingIsPlain()
    ensures !IsSpace(')') && !IsMark(')')
  {
  }

  lemma WordIsPlain(w: string)
    requires IsUrlWord(w)
    ensures w[0] != '/' && !IsMark(w[0])
  {
  }

  lemma UrlMeasured(word: string, gap: string, tail: string, m: nat)
    requires IsUrlWord(word) && AllSpace(gap) && tail != [] && !IsSpace(tail[0]) && !IsMark(tail[0])
    requires BodyEnd(tail) == Some(m)
    ensures UrlLength(false, word + "(" + (gap + tail)) == 4 + |gap| + m
  {
    hide BodyEnd, SpaceLength, IsSpace, IsMark;
    var s := word + "(" + (gap + tail);
    assert s[4..] == gap + tail && s[3] == '(' && s[0] == word[0] && s[1] == word[1] && s[2] == word[2];
    GapLength(gap, tail);
    var w := 4 + |gap|;
    assert s[w..] == tail && s[w] == tail[0];
  }

  // ---------------------------------------------------------------- plain text

  /** How a segment other than plain text starts. */
  predicate Starts(rest: string) {
    rest == [] || IsMark(rest[0]) || rest[0] in "()/; " || LowerChar(rest[0]) == 'u'
  }

  /** The first character of a plain text is a chunk of its own. */
  lemma PlainSeen(b: bool, t: string, rest: string)
    requires t != [] && IsPlain(t) && Starts(rest)
    requires rest != [] && rest[0] == '(' ==> NoUrlAtEnd(b, t)
    ensures var s := t + rest;
            !StartsComment(s) && UrlLength(b, s) == 0 && s[0] == t[0] && s[1..] == t[1..] + rest && s[..1] == [t[0]]
  {
    hide NoUrlAtEnd;
    var s := t + rest;
    assert s[0] == t[0] && s[1..] == t[1..] + rest;
    if |t| > 1 { assert s[1] == t[1]; } else if rest != [] { assert s[1] == rest[0]; }
    if !b && StartsUrl(s) { UrlNeedsWord(t, rest); NotTheWord(b, t); }
  }

  lemma NotTheWord(b: bool, t: string)
    requires t != [] && NoUrlAtEnd(b, t)
    ensures b || !IsUrlWord(t)
    ensures NoUrlAtEnd(IdentChar(t[0]), t[1..])
  {
  }

  lemma UrlNeedsWord(t: string, rest: string)
    requires t != [] && IsPlain(t) && Starts(rest) && StartsUrl(t + rest)
    ensures IsUrlWord(t) && rest != [] && rest[0] == '('
  {
    var s := t + rest;
    assert forall k :: 0 <= k < |t| ==> s[k] == t[k];
    if |t| < 4 { assert s[|t|] == rest[0]; }
  }

  lemma {:induction false} PlainStripped(b: bool, t: string, rest: string)
    requires t != [] && IsPlain(t) && Starts(rest)
    requires rest != [] && rest[0] == '(' ==> NoUrlAtEnd(b, t)
    ensures Strip(b, None, t + rest) == t + Strip(IdentChar(t[|t| - 1]), None, rest)
    decreases |t|
  {
    hide Strip, UrlLength, NoUrlAtEnd, StartsComment, Starts, IdentChar;
    PlainSeen(b, t, rest);
    StripUnfold(b, None, t + rest);
    assert t == [t[0]] + t[1..];
    if |t| > 1 {
      if rest != [] && rest[0] == '(' { NotTheWord(b, t); }
      PlainStripped(IdentChar(t[0]), t[1..], rest);
    } else {
      assert t[1..] + rest == rest;
    }
  }

  // ---------------------------------------------------------------- comments and what is left

  /** What follows a segment. */
  lemma NextStarts(gs: seq<Segment>, b: bool)
    requires WellFormed(b, gs) && (gs != [] ==> !gs[0].Plain?)
    ensures Starts(Print(gs)) && Starts(PrintWritten(gs))
    ensures gs != [] && !gs[0].Open? ==>
              (Print(gs) != [] ==> Print(gs)[0] != '(') && (PrintWritten(gs) != [] ==> PrintWritten(gs)[0] != '(')
  {
    hide IsPlain, Encloses, NoUrlAtEnd, IsBody, WellFormed, Starts, Print, PrintWritten;
    if gs == [] {
      NothingPrinted();
      NothingStarts();
    } else {
      FirstIs(b, gs);
      FirstPrinted(gs);
      SegmentStarts(b, gs[0], if |gs| > 1 then Some(gs[1]) else None, Print(gs[1..]));
      SegmentStarts(b, gs[0], if |gs| > 1 then Some(gs[1]) else None, PrintWritten(gs[1..]));
    }
  }

  lemma NothingPrinted()
    ensures Print([]) == "" && PrintWritten([]) == ""
  {
  }

  lemma FirstIs(b: bool, gs: seq<Segment>)
    requires gs != [] && WellFormed(b, gs)
    ensures IsSegment(b, gs[0], if |gs| > 1 then Some(gs[1]) else None)
  {
  }

  lemma FirstPrinted(gs: seq<Segment>)
    requires gs != []
    ensures Print(gs) == Text(gs[0]) + Print(gs[1..]) && PrintWritten(gs) == Written(gs[0]) + PrintWritten(gs[1..])
  {
  }

  lemma SegmentStarts(b: bool, g: Segment, next: Option<Segment>, rest: string)
    requires IsSegment(b, g, next) && !g.Plain?
    ensures Starts(Text(g) + rest) && Starts(Written(g) + rest)
    ensures !g.Open? ==> (Text(g) + rest)[0] != '(' && (Written(g) + rest)[0] != '('
  {
    hide IsPlain, Encloses, NoUrlAtEnd, IsBody;
    assert (Text(g) + rest)[0] == Text(g)[0] && (Written(g) + rest)[0] == Written(g)[0];
  }

  /** One character that is no mark and starts nothing. */
  lemma SignStripped(b: bool, c: char, rest: string)
    requires c in "();"
    ensures Strip(b, None, [c] + rest) == [c] + Strip(false, None, rest)
  {
    hide Strip;
    var s := [c] + rest;
    StripUnfold(b, None, s);
    assert s[0] == c && s[..1] == [c] && s[1..] == rest;
  }

  lemma SegmentStripped(b: bool, gs: seq<Segment>)
    requires gs != [] && WellFormed(b, gs)
    ensures Strip(b, None, Print(gs)) == Written(gs[0]) + Strip(IdentAfter(gs[0]), None, Print(gs[1..]))
  {
    hide Strip, IsPlain, NoUrlAtEnd, Encloses, IsBody, StripComments, Starts;
    var g, rest := gs[0], Print(gs[1..]);
    match g
    case Plain(t) =>
      if |gs| > 1 { assert gs[1..][0] == gs[1]; }
      NextStarts(gs[1..], IdentAfter(g));
      NothingStarts();
      PlainStripped(b, t, rest);
    case Str(_, _) => StrStripped(b, g, rest);
    case Url(_, _, _) => UrlStripped(g, rest);
    case QuotedUrl(_, _, _, _) => QuotedStripped(b, g, rest);
    case Note(body) =>
      CommentSpace(b, body, true, rest);
      assert Text(g) + rest == "/*" + body + ("*/" + rest);
      StripIsComments(rest);
    case Open => SignStripped(b, '(', rest);
    case Close => SignStripped(b, ')', rest);
    case Semi => SignStripped(b, ';', rest);
  }

  lemma NothingStarts()
    ensures Starts("")
  {
  }

  lemma StripIsComments(s: string)
    ensures StripComments(s) == Strip(false, None, s)
  {
  }

  lemma UrlStripped(g: Segment, rest: string)
    requires g.Url? && IsSegment(false, g, None)
    ensures Strip(false, None, Text(g) + rest) == Text(g) + Strip(false, None, rest)
  {
    hide Strip, UrlLength;
    var s, n := Text(g) + rest, |Text(g)|;
    UrlSeen(g, rest);
    StripUnfold(false, None, s);
    assert s[..n] == Text(g) && s[n..] == rest && s[n - 1] == ')';
  }

  // ---------------------------------------------------------------- urls with quotes

  /** A string on its own. */
  function Quotation(g: Segment): Segment
    requires g.QuotedUrl?
  {
    Str(g.mark, g.body)
  }

  /** With a quotation mark after it the word starts no unquoted url. */
  lemma QuotedSeen(b: bool, word: string, gap: string, tail: string)
    requires IsUrlWord(word) && AllSpace(gap) && tail != [] && IsMark(tail[0])
    ensures UrlLength(b, word + ("(" + gap) + tail) == 0
  {
    hide SpaceLength, BodyEnd;
    var s := word + ("(" + gap) + tail;
    assert s[4..] == gap + tail;
    MarkIsNoSpace(tail[0]);
    GapLength(gap, tail);
    assert s[4 + |gap|] == tail[0];
  }

  lemma MarkIsNoSpace(c: char)
    requires IsMark(c)
    ensures !IsSpace(c) && c != '/'
  {
  }

  lemma NoLetterU(b: bool, c: char, rest: string)
    requires LowerChar(c) != 'u'
    ensures UrlLength(b, [c] + rest) == 0
  {
    assert ([c] + rest)[0] == c;
  }

  lemma SpaceIsDull(c: char)
    requires IsSpace(c)
    ensures LowerChar(c) != 'u' && !IsMark(c) && c != '/' && !IdentChar(c) && c != ';' && c != '(' && c != ')'
  {
  }

  lemma CharStripped(b: bool, c: char, rest: string)
    requires !IsMark(c) && c != '/' && UrlLength(b, [c] + rest) == 0
    ensures Strip(b, None, [c] + rest) == [c] + Strip(IdentChar(c), None, rest)
  {
    hide Strip, UrlLength;
    var s := [c] + rest;
    StripUnfold(b, None, s);
    assert s[0] == c && s[..1] == [c] && s[1..] == rest;
  }

  lemma {:induction false} GapStripped(gap: string, rest: string)
    requires AllSpace(gap)
    ensures Strip(false, None, gap + rest) == gap + Strip(false, None, rest)
  {
    hide Strip, UrlLength;
    if gap == [] {
      assert gap + rest == rest;
    } else {
      SpaceIsDull(gap[0]);
      NoLetterU(false, gap[0], gap[1..] + rest);
      CharStripped(false, gap[0], gap[1..] + rest);
      assert gap + rest == [gap[0]] + (gap[1..] + rest) && gap == [gap[0]] + gap[1..];
      GapStripped(gap[1..], rest);
    }
  }

  lemma LettersDull(word: string)
    requires IsUrlWord(word)
    ensures forall k :: 0 <= k < 3 ==> !IsMark(word[k]) && word[k] != '/' && word[k] != ';' && IdentChar(word[k])
    ensures forall k :: 0 <= k < 3 ==> word[k] != '(' && word[k] != ')'
    ensures LowerChar(word[1]) != 'u' && LowerChar(word[2]) != 'u' && LowerChar('(') != 'u' && !IdentChar('(')
  {
  }

  lemma QuotedStripped(b: bool, g: Segment, rest: string)
    requires g.QuotedUrl? && IsSegment(b, g, None)
    ensures Strip(b, None, Text(g) + rest) == Text(g) + Strip(false, None, rest)
  {
    hide Strip, UrlLength, IdentChar, IsSpace, Encloses;
    var w, tail := g.word, [g.mark] + g.body + [g.mark] + rest;
    var two := "(" + (g.gap + tail);
    var one := [w[2]] + two;
    var zero := [w[1]] + one;
    LettersDull(w);
    QuotedSeen(b, w, g.gap, tail);
    assert w + ("(" + g.gap) + tail == [w[0]] + zero;
    assert Text(g) + rest == [w[0]] + zero;
    CharStripped(b, w[0], zero);
    NoLetterU(true, w[1], one);
    CharStripped(true, w[1], one);
    NoLetterU(true, w[2], two);
    CharStripped(true, w[2], two);
    SignStripped(true, '(', g.gap + tail);
    GapStripped(g.gap, tail);
    StrStripped(false, Quotation(g), rest);
    assert Text(g) + Strip(false, None, rest)
        == [w[0]] + ([w[1]] + ([w[2]] + ("(" + (g.gap + ([g.mark] + g.body + [g.mark] + Strip(false, None, rest))))));
  }

  /** Stripping replaces the comments of a written text and nothing else. */
  lemma {:induction false} StripPrinted(b: bool, gs: seq<Segment>)
    requires WellFormed(b, gs)
    ensures Strip(b, None, Print(gs)) == PrintWritten(gs)
    decreases |gs|
  {
    hide Strip, IsSegment, Written, Text;
    if gs == [] {
      StripNothing(b, None);
    } else {
      SegmentStripped(b, gs);
      StripPrinted(IdentAfter(gs[0]), gs[1..]);
    }
  }

  // ---------------------------------------------------------------- declarations

  function Depth(depth: nat, g: Segment): nat {
    match g
    case Open => depth + 1
    case QuotedUrl(_, _, _, _) => depth + 1
    case Close => if depth == 0 then 0 else depth - 1
    case _ => depth
  }

  /** The texts between the semicolons that stand outside brackets. */
  function Pieces(depth: nat, gs: seq<Segment>): (r: seq<string>)
    ensures r != []
    decreases |gs|
  {
    if gs == [] then [""]
    else if gs[0].Semi? && depth == 0 then [""] + Pieces(0, gs[1..])
    else
      var more := Pieces(Depth(depth, gs[0]), gs[1..]);
      [Written(gs[0]) + more[0]] + more[1..]
  }

  lemma CharSplit(b: bool, depth: nat, c: char, rest: string)
    requires !IsMark(c) && UrlLength(b, [c] + rest) == 0 && !Cuts(None, depth, c)
    ensures Split(b, None, depth, [c] + rest)
         == Attach([c], Split(IdentChar(c), None, DepthAfter(None, depth, c), rest))
  {
    hide Split, Attach, UrlLength;
    var s := [c] + rest;
    assert s[0] == c && s[..1] == [c] && s[1..] == rest;
    SplitUnfold(b, None, depth, s);
  }

  lemma {:induction false} StringSplit(b: bool, depth: nat, q: char, body: string, rest: string)
    requires IsMark(q) && Encloses(q, body)
    ensures Split(b, Some(q), depth, body + [q] + rest) == Attach(body + [q], Split(false, None, depth, rest))
    decreases |body|
  {
    hide Split, UrlLength, Attach;
    var s := body + [q] + rest;
    SplitUnfold(b, Some(q), depth, s);
    if body == [] {
      assert s[0] == q && s[1..] == rest && s[..1] == body + [q];
      assert !IdentChar(q);
    } else {
      var n := if body[0] == '\\' then 2 else 1;
      assert s[0] == body[0] && s[..n] == body[..n] && s[n..] == body[n..] + [q] + rest;
      StringSplit(IdentChar(s[n - 1]), depth, q, body[n..], rest);
      AttachTwice(body[..n], body[n..] + [q], Split(false, None, depth, rest));
      assert body[..n] + (body[n..] + [q]) == body + [q];
    }
  }

  lemma StrSplit(b: bool, depth: nat, g: Segment, rest: string)
    requires g.Str? && IsMark(g.mark) && Encloses(g.mark, g.body)
    ensures Split(b, None, depth, Text(g) + rest) == Attach(Text(g), Split(false, None, depth, rest))
  {
    hide Split, UrlLength, Attach, Encloses;
    var s, q := Text(g) + rest, g.mark;
    assert s[0] == q && s[..1] == [q] && s[1..] == g.body + [q] + rest;
    SplitUnfold(b, None, depth, s);
    StringSplit(false, depth, q, g.body, rest);
    assert !IdentChar(q);
    AttachTwice([q], g.body + [q], Split(false, None, depth, rest));
    assert [q] + (g.body + [q]) == Text(g);
  }

  lemma UrlSplit(depth: nat, g: Segment, rest: string)
    requires g.Url? && IsSegment(false, g, None)
    ensures Split(false, None, depth, Text(g) + rest) == Attach(Text(g), Split(false, None, depth, rest))
  {
    hide Split, UrlLength, Attach, Encloses;
    var s, n := Text(g) + rest, |Text(g)|;
    UrlSeen(g, rest);
    assert s[0] == g.word[0];
    SplitUnfold(false, None, depth, s);
    assert s[..n] == Text(g) && s[n..] == rest && s[n - 1] == ')';
  }

  lemma {:induction false} PlainSplit(b: bool, depth: nat, t: string, rest: string)
    requires t != [] && IsPlain(t) && Starts(rest)
    requires rest != [] && rest[0] == '(' ==> NoUrlAtEnd(b, t)
    ensures Split(b, None, depth, t + rest) == Attach(t, Split(IdentChar(t[|t| - 1]), None, depth, rest))
    decreases |t|
  {
    hide Split, UrlLength, NoUrlAtEnd, StartsComment, Starts, IdentChar, Attach;
    PlainSeen(b, t, rest);
    var more := t[1..] + rest;
    assert t + rest == [t[0]] + more;
    CharSplit(b, depth, t[0], more);
    if |t| > 1 {
      if rest != [] && rest[0] == '(' { NotTheWord(b, t); }
      PlainSplit(IdentChar(t[0]), depth, t[1..], rest);
      AttachTwice([t[0]], t[1..], Split(IdentChar(t[|t| - 1]), None, depth, rest));
      assert [t[0]] + t[1..] == t;
    } else {
      assert more == rest && [t[0]] == t;
    }
  }

  /** A space or a bracket starts no url. */
  lemma SignSplit(b: bool, depth: nat, c: char, rest: string)
    requires c in " ()" || (c == ';' && depth > 0)
    ensures Split(b, None, depth, [c] + rest) == Attach([c], Split(false, None, DepthAfter(None, depth, c), rest))
  {
    hide Split, Attach;
    assert ([c] + rest)[0] == c;
    CharSplit(b, depth, c, rest);
  }

  lemma SegmentSplit(b: bool, depth: nat, gs: seq<Segment>)
    requires gs != [] && WellFormed(b, gs) && !(gs[0].Semi? && depth == 0)
    ensures Split(b, None, depth, PrintWritten(gs))
         == Attach(Written(gs[0]), Split(IdentAfter(gs[0]), None, Depth(depth, gs[0]), PrintWritten(gs[1..])))
  {
    hide Split, IsPlain, NoUrlAtEnd, Encloses, IsBody, Starts, Attach;
    var g, rest := gs[0], PrintWritten(gs[1..]);
    match g
    case Plain(t) =>
      if |gs| > 1 { assert gs[1..][0] == gs[1]; }
      NextStarts(gs[1..], IdentAfter(g));
      NothingStarts();
      PlainSplit(b, depth, t, rest);
    case Str(_, _) => StrSplit(b, depth, g, rest);
    case Url(_, _, _) => UrlSplit(depth, g, rest);
    case QuotedUrl(_, _, _, _) => QuotedSplit(b, depth, g, rest);
    case Note(_) => SignSplit(b, depth, ' ', rest);
    case Open => SignSplit(b, depth, '(', rest);
    case Close => SignSplit(b, depth, ')', rest);
    case Semi => SignSplit(b, depth, ';', rest);
  }

  lemma {:induction false} GapSplit(depth: nat, gap: string, rest: string)
    requires AllSpace(gap)
    ensures Split(false, None, depth, gap + rest) == Attach(gap, Split(false, None, depth, rest))
  {
    hide Split, UrlLength, Attach;
    if gap == [] {
      assert gap + rest == rest;
      AttachNothing(gap, Split(false, None, depth, rest));
    } else {
      SpaceIsDull(gap[0]);
      NoLetterU(false, gap[0], gap[1..] + rest);
      CharSplit(false, depth, gap[0], gap[1..] + rest);
      assert gap + rest == [gap[0]] + (gap[1..] + rest) && gap == [gap[0]] + gap[1..];
      GapSplit(depth, gap[1..], rest);
      AttachTwice([gap[0]], gap[1..], Split(false, None, depth, rest));
    }
  }

  /** One more character in front of a piece. */
  lemma PrefixSplit(b: bool, depth: nat, c: char, text: string, rest: string, pieces: seq<string>)
    requires !IsMark(c) && UrlLength(b, [c] + text + rest) == 0 && !Cuts(None, depth, c) && pieces != []
    requires Split(IdentChar(c), None, DepthAfter(None, depth, c), text + rest) == Attach(text, pieces)
    ensures Split(b, None, depth, [c] + text + rest) == Attach([c] + text, pieces)
  {
    hide Split, UrlLength, Attach, IdentChar, Cuts, IsMark;
    assert [c] + text + rest == [c] + (text + rest);
    CharSplit(b, depth, c, text + rest);
    AttachTwice([c], text, pieces);
  }

  lemma QuotedTail(depth: nat, g: Segment, rest: string)
    requires g.QuotedUrl? && IsSegment(false, g, None)
    ensures var text := g.gap + ([g.mark] + g.body + [g.mark]);
            Split(false, None, depth, text + rest) == Attach(text, Split(false, None, depth, rest))
  {
    hide Split, Attach, Encloses, IsSpace;
    var str := [g.mark] + g.body + [g.mark];
    StrSplit(false, depth, Quotation(g), rest);
    GapSplit(depth, g.gap, str + rest);
    AttachTwice(g.gap, str, Split(false, None, depth, rest));
    assert g.gap + (str + rest) == g.gap + str + rest;
  }

  lemma QuotedSplit(b: bool, depth: nat, g: Segment, rest: string)
    requires g.QuotedUrl? && IsSegment(b, g, None)
    ensures Split(b, None, depth, Text(g) + rest) == Attach(Text(g), Split(false, None, depth + 1, rest))
  {
    hide Split, UrlLength, IdentChar, IsSpace, Encloses, Attach, IsMark;
    var w, pieces := g.word, Split(false, None, depth + 1, rest);
    var tail := g.gap + ([g.mark] + g.body + [g.mark]);
    var one := ['('] + tail;
    var two := [w[2]] + one;
    var three := [w[1]] + two;
    LettersDull(w);
    BracketIsPlain();
    QuotedTail(depth + 1, g, rest);
    NoLetterU(true, '(', tail + rest);
    assert ['('] + tail + rest == ['('] + (tail + rest);
    PrefixSplit(true, depth, '(', tail, rest, pieces);
    NoLetterU(true, w[2], one + rest);
    assert [w[2]] + one + rest == [w[2]] + (one + rest);
    PrefixSplit(true, depth, w[2], one, rest, pieces);
    NoLetterU(true, w[1], two + rest);
    assert [w[1]] + two + rest == [w[1]] + (two + rest);
    PrefixSplit(true, depth, w[1], two, rest, pieces);
    QuotedSeen(b, w, g.gap, [g.mark] + g.body + [g.mark] + rest);
    assert [w[0]] + three == Text(g);
    assert [w[0]] + three + rest == w + ("(" + g.gap) + ([g.mark] + g.body + [g.mark] + rest);
    PrefixSplit(b, depth, w[0], three, rest, pieces);
  }

  lemma BracketIsPlain()
    ensures !IsMark('(')
  {
  }

  lemma SemiSplit(b: bool, rest: string)
    ensures Split(b, None, 0, ";" + rest) == [""] + Split(false, None, 0, rest)
  {
    assert (";" + rest)[0] == ';' && (";" + rest)[1..] == rest;
  }

  /** Splitting cuts a written text at its semicolons outside brackets and nowhere else. */
  lemma {:induction false} SplitPrinted(b: bool, depth: nat, gs: seq<Segment>)
    requires WellFormed(b, gs)
    ensures Split(b, None, depth, PrintWritten(gs)) == Pieces(depth, gs)
    decreases |gs|
  {
    hide Split, IsSegment;
    if gs == [] {
      SplitNothing(b, None, depth);
    } else if gs[0].Semi? && depth == 0 {
      SemiSplit(b, PrintWritten(gs[1..]));
      SplitPrinted(false, 0, gs[1..]);
    } else {
      SegmentSplit(b, depth, gs);
      SplitPrinted(IdentAfter(gs[0]), Depth(depth, gs[0]), gs[1..]);
    }
  }

  // ---------------------------------------------------------------- the two passes

  /** stripComments replaces exactly the comments, each by a space. */
  lemma {:induction false} CommentsReplaced(gs: seq<Segment>)
    requires WellFormed(false, gs)
    ensures StripComments(Print(gs)) == PrintWritten(gs)
  {
    StripIsComments(Print(gs));
    StripPrinted(false, gs);
  }

  /** importantify gives one declaration for each text between semicolons outside brackets that is not
      blank once its comments are spaces: trimmed, and marked unless it is. */
  lemma {:induction false} DeclarationsMarked(gs: seq<Segment>)
    requires WellFormed(false, gs)
    ensures var css := Importantify(Print(gs));
            && (css == "" <==> forall p :: p in Pieces(0, gs) ==> Trim(p) == "")
            && (css != "" ==> OneEach(Split(false, None, 0, css), Pieces(0, gs)))
  {
    hide Split, OneEach, Trim, Importantify, Pieces, WellFormed;
    CommentsReplaced(gs);
    SplitPrinted(false, 0, gs);
    ImportantifyMarksEach(Print(gs));
  }
}
