/** The inline-CSS rewriting of the design runtime
    (apps/MasterQala/design_handoff_masterqala/support.js:1427-1496): stripping comments and
    adding `!important` to every declaration.

    Both source loops walk the text in chunks (a character, an escape, an unquoted url, a
    comment) and carry an open quote. Chunk gives that walk once; the loops are proved against
    recursions over it. */
module Css {
  import opened JsText
  import opened Options

  // ---------------------------------------------------------------- characters

  /** /[a-z0-9_-]/i */
  predicate IdentChar(c: char) {
    'a' <= LowerChar(c) <= 'z' || '0' <= c <= '9' || c == '_' || c == '-'
  }

  predicate IsMark(c: char) { c == '"' || c == '\'' }

  /** Whether the character before position i is an identifier character. */
  predicate IdentBefore(css: string, i: int)
    requires i <= |css|
  {
    0 < i && IdentChar(css[i - 1])
  }

  // ---------------------------------------------------------------- unquoted urls

  function SpaceLength(s: string): (n: nat)
    ensures n <= |s|
    ensures AllSpace(s[..n])
    ensures n < |s| ==> !IsSpace(s[n])
  {
    if s != [] && IsSpace(s[0]) then 1 + SpaceLength(s[1..]) else 0
  }

  /** Length of s up to and including the first unescaped closing bracket; None if none. */
  function BodyEnd(s: string): (r: Option<nat>)
    ensures r.Some? ==> 0 < r.value <= |s| && s[r.value - 1] == ')'
  {
    if s == [] then None
    else if s[0] == ')' then Some(1)
    else
      var n := if s[0] == '\\' && |s| > 1 then 2 else 1;
      match BodyEnd(s[n..])
      case Some(m) => Some(n + m)
      case None => None
  }

  /** "url(" in any case */
  predicate StartsUrl(s: string) {
    |s| >= 4 && LowerChar(s[0]) == 'u' && LowerChar(s[1]) == 'r' && LowerChar(s[2]) == 'l' && s[3] == '('
  }

  /** Length of the unquoted url at the start of s, given whether an identifier character
      comes before it; 0 when there is none. An unterminated url runs to the end. */
  function UrlLength(identBefore: bool, s: string): (n: nat)
    ensures n <= |s|
    ensures n > 0 ==> StartsUrl(s)
  {
    if identBefore || !StartsUrl(s) then 0
    else
      var w := 4 + SpaceLength(s[4..]);
      if w < |s| && IsMark(s[w]) then 0
      else match BodyEnd(s[w..]) case Some(m) => w + m case None => |s|
  }

  /** What scanUnquotedUrl returns: the end position, or -1. */
  function UrlEnd(css: string, i: nat): int
    requires i <= |css|
  {
    var n := UrlLength(IdentBefore(css, i), css[i..]);
    if n == 0 then -1 else i + n
  }

  /** Where the second loop of scanUnquotedUrl leaves a url body that starts at j. */
  function BodyStop(css: string, j: nat): nat {
    if j >= |css| then |css|
    else match BodyEnd(css[j..]) case Some(m) => j + m case None => |css|
  }

  lemma BodyStopStep(css: string, j: nat)
    requires j < |css|
    ensures BodyStop(css, j) == if css[j] == ')' then j + 1
                                else BodyStop(css, if css[j] == '\\' then j + 2 else j + 1)
  {
    assert css[j..][1..] == css[j + 1..];
    if j + 1 < |css| { assert css[j..][2..] == css[j + 2..]; }
  }

  lemma SpaceLengthStep(css: string, j: nat)
    requires j < |css|
    ensures SpaceLength(css[j..]) == if IsSpace(css[j]) then 1 + SpaceLength(css[j + 1..]) else 0
  {
    assert css[j..][1..] == css[j + 1..];
  }

  /** UrlEnd in terms of positions of the whole text. */
  lemma UrlEndAt(css: string, i: nat)
    requires i <= |css| && StartsUrl(css[i..]) && !IdentBefore(css, i)
    ensures var w := i + 4 + SpaceLength(css[i + 4..]);
            UrlEnd(css, i) == if w < |css| && IsMark(css[w]) then -1 else BodyStop(css, w)
  {
    hide BodyEnd, SpaceLength;
    var s := css[i..];
    assert s[4..] == css[i + 4..];
    var w := 4 + SpaceLength(s[4..]);
    assert s[w..] == css[i + w..];
    if w == |s| { assert s[w..] == []; }
  }

  method SkipSpace(css: string, start: nat) returns (j: nat)
    requires start <= |css|
    ensures j == start + SpaceLength(css[start..])
  {
    j := start;
    while j < |css| && IsSpace(css[j])
      invariant start <= j <= |css|
      invariant j + SpaceLength(css[j..]) == start + SpaceLength(css[start..])
    {
      SpaceLengthStep(css, j);
      j := j + 1;
    }
  }

  method SkipBody(css: string, start: nat) returns (end: nat)
    ensures end == BodyStop(css, start)
  {
    var j := start;
    while j < |css| && css[j] != ')'
      invariant start <= j
      invariant BodyStop(css, j) == BodyStop(css, start)
      decreases |css| - j
    {
      BodyStopStep(css, j);
      if css[j] == '\\' { j := j + 1; }
      j := j + 1;
    }
    if j < |css| { BodyStopStep(css, j); }
    return if j < |css| then j + 1 else |css|;
  }

  /** scanUnquotedUrl; its two loops are the methods above. */
  method ScanUnquotedUrl(css: string, i: nat) returns (end: int)
    requires i <= |css|
    ensures end == UrlEnd(css, i)
  {
    hide BodyEnd, BodyStop, SpaceLength;
    if !StartsUrl(css[i..]) || IdentBefore(css, i) { return -1; }
    UrlEndAt(css, i);
    var j := SkipSpace(css, i + 4);
    if j < |css| && IsMark(css[j]) { return -1; }
    end := SkipBody(css, j);
  }

  // ---------------------------------------------------------------- chunks

  /** How many characters the walk consumes at the start of a non-empty text, what a comment
      stripper writes for them, and which quote is open afterwards. */
  datatype Chunk = Chunk(length: nat, output: string, quote: Option<char>)

  predicate StartsComment(s: string) { |s| >= 2 && s[0] == '/' && s[1] == '*' }

  /** Length of the comment at the start of s; an unterminated one runs to the end. */
  function CommentLength(s: string): (n: nat)
    requires StartsComment(s)
    ensures 2 <= n <= |s|
    ensures n < |s| ==> s[n - 1] == '/'
  {
    2 + CloseComment(s[2..])
  }

  /** Length of s up to and including the first star-slash; |s| if there is none. */
  function CloseComment(s: string): (n: nat)
    ensures n <= |s|
    ensures n < |s| ==> n >= 2 && s[n - 1] == '/'
  {
    if |s| < 2 then |s|
    else if s[0] == '*' && s[1] == '/' then 2
    else 1 + CloseComment(s[1..])
  }

  /** A chunk that is not a comment. */
  function Token(identBefore: bool, quote: Option<char>, s: string): (c: Chunk)
    requires s != []
    ensures 0 < c.length <= |s| && c.output == s[..c.length]
  {
    if quote.Some? then
      if s[0] == '\\' then
        var n := if |s| > 1 then 2 else 1;
        Chunk(n, s[..n], quote)
      else Chunk(1, s[..1], if s[0] == quote.value then None else quote)
    else if IsMark(s[0]) then Chunk(1, s[..1], Some(s[0]))
    else
      var n := UrlLength(identBefore, s);
      if n == 0 then Chunk(1, s[..1], None) else Chunk(n, s[..n], None)
  }

  function Next(identBefore: bool, quote: Option<char>, s: string): (c: Chunk)
    requires s != []
    ensures 0 < c.length <= |s| && c.output != []
  {
    if quote.None? && StartsComment(s) then Chunk(CommentLength(s), " ", None)
    else Token(identBefore, quote, s)
  }

  /** What stripComments writes for the rest of the text s. */
  function Strip(identBefore: bool, quote: Option<char>, s: string): string
    decreases |s|
  {
    if s == [] then []
    else
      var c := Next(identBefore, quote, s);
      c.output + Strip(IdentChar(s[c.length - 1]), c.quote, s[c.length..])
  }

  function StripComments(css: string): string { Strip(false, None, css) }

  /** css.indexOf("*" + "/", from) */
  method IndexOfClose(css: string, from: nat) returns (end: int)
    requires from <= |css|
    ensures end == -1 ==> CloseComment(css[from..]) == |css| - from
    ensures end != -1 ==> from <= end && end + 2 <= |css|
    ensures end != -1 ==> CloseComment(css[from..]) == end + 2 - from
  {
    var j := from;
    while j + 1 < |css|
      invariant from <= j <= |css|
      invariant CloseComment(css[from..]) == j - from + CloseComment(css[j..])
    {
      if css[j] == '*' && css[j + 1] == '/' { return j; }
      assert css[j..][1..] == css[j + 1..];
      j := j + 1;
    }
    return -1;
  }

  /** The chunk at position i, and what is written from there on. */
  function ChunkAt(css: string, i: nat, quote: Option<char>): Chunk
    requires i < |css|
  {
    Next(IdentBefore(css, i), quote, css[i..])
  }

  function StripAt(css: string, i: nat, quote: Option<char>): string {
    if i >= |css| then [] else Strip(IdentBefore(css, i), quote, css[i..])
  }

  lemma StripNothing(b: bool, q: Option<char>)
    ensures Strip(b, q, []) == []
  {
  }

  lemma StripUnfold(b: bool, q: Option<char>, s: string)
    requires s != []
    ensures var c := Next(b, q, s);
            Strip(b, q, s) == c.output + Strip(IdentChar(s[c.length - 1]), c.quote, s[c.length..])
  {
  }

  lemma StripAtStep(css: string, i: nat, open: Option<char>, written: string, next: nat, quote: Option<char>)
    requires i < |css| && i < next && Chunk(next - i, written, quote) == ChunkAt(css, i, open)
    ensures StripAt(css, i, open) == written + StripAt(css, next, quote)
  {
    hide Strip, Next, IdentChar;
    var s, n := css[i..], next - i;
    assert s[n - 1] == css[next - 1];
    assert s[n..] == css[next..];
    StripUnfold(IdentBefore(css, i), open, s);
    StripNothing(IdentBefore(css, next), quote);
  }

  lemma StripAtStart(css: string)
    ensures StripAt(css, 0, None) == StripComments(css)
  {
    assert css[0..] == css;
  }

  /** What has been written and what remains to be written make up the whole. */
  ghost predicate Progress(css: string, out: string, i: nat, quote: Option<char>, whole: string) {
    out + StripAt(css, i, quote) == whole
  }

  lemma ProgressStep(css: string, out: string, i: nat, open: Option<char>, written: string, next: nat,
                     quote: Option<char>, whole: string)
    requires i < |css| && i < next && Chunk(next - i, written, quote) == ChunkAt(css, i, open)
    requires Progress(css, out, i, open, whole)
    ensures Progress(css, out + written, next, quote, whole)
  {
    StripAtStep(css, i, open, written, next, quote);
    var rest := StripAt(css, next, quote);
    assert out + (written + rest) == (out + written) + rest;
  }

  /** The chunk at position i, read off the characters of the whole text. */
  lemma ChunkCases(css: string, i: nat, quote: Option<char>)
    requires i < |css|
    ensures var c, x := ChunkAt(css, i, quote), css[i];
            if quote.Some? then
              if x == '\\' then
                c == Chunk(if i + 1 < |css| then 2 else 1, css[i..if i + 1 < |css| then i + 2 else i + 1], quote)
              else c == Chunk(1, [x], if x == quote.value then None else quote)
            else if IsMark(x) then c == Chunk(1, [x], Some(x))
            else if x == '/' && i + 1 < |css| && css[i + 1] == '*' then
              c == Chunk(2 + CloseComment(css[i + 2..]), " ", None)
            else if UrlEnd(css, i) == -1 then c == Chunk(1, [x], None)
            else c == Chunk(UrlEnd(css, i) - i, css[i..UrlEnd(css, i)], None)
  {
    hide UrlLength, IdentBefore, StartsUrl;
    var s := css[i..];
    assert s[..1] == [css[i]];
    if i + 1 < |css| {
      assert s[..2] == css[i..i + 2] && s[1] == css[i + 1];
      assert s[2..] == css[i + 2..];
    }
    var n := UrlLength(IdentBefore(css, i), s);
    assert s[..n] == css[i..i + n];
  }

  /** One turn of the loop of stripComments: what it appends, the position it goes on from
      and the quote then open. */
  method StripTurn(css: string, i: nat, open: Option<char>)
    returns (written: string, next: nat, quote: Option<char>)
    requires i < |css|
    ensures i < next
    ensures Chunk(next - i, written, quote) == ChunkAt(css, i, open)
  {
    hide ChunkAt, UrlLength, CloseComment;
    ChunkCases(css, i, open);
    var c := css[i];
    quote := open;
    if quote.Some? {
      if c == '\\' {
        next := if i + 1 < |css| then i + 2 else i + 1;
        written := css[i..next];
        return;
      }
      if c == quote.value { quote := None; }
    } else if c == '\'' || c == '"' {
      quote := Some(c);
    } else if c == '/' && i + 1 < |css| && css[i + 1] == '*' {
      var end := IndexOfClose(css, i + 2);
      return " ", if end == -1 then |css| else end + 2, None;
    } else {
      var end := ScanUnquotedUrl(css, i);
      if end != -1 { return css[i..end], end, None; }
    }
    return [c], i + 1, quote;
  }

  /** stripComments */
  method StripCommentsLoop(css: string) returns (out: string)
    ensures out == StripComments(css)
  {
    out := "";
    var quote: Option<char> := None;
    var i := 0;
    StripAtStart(css);
    ghost var whole := StripAt(css, 0, None);
    while i < |css|
      invariant 0 <= i
      invariant Progress(css, out, i, quote, whole)
      decreases |css| - i
    {
      var written, next, after := StripTurn(css, i, quote);
      ProgressStep(css, out, i, quote, written, next, after, whole);
      out, i, quote := out + written, next, after;
    }
  }

  // ---------------------------------------------------------------- declarations

  /** A semicolon here ends a declaration. */
  predicate Cuts(quote: Option<char>, depth: nat, c: char) {
    quote.None? && c == ';' && depth == 0
  }

  function DepthAfter(quote: Option<char>, depth: nat, c: char): nat {
    if quote.Some? then depth
    else if c == '(' then depth + 1
    else if c == ')' then if depth == 0 then 0 else depth - 1
    else depth
  }

  /** The declarations importantify finds in the rest of the text s, untrimmed. */
  function Split(identBefore: bool, quote: Option<char>, depth: nat, s: string): (r: seq<string>)
    ensures r != []
    decreases |s|
  {
    if s == [] then [""]
    else if Cuts(quote, depth, s[0]) then [""] + Split(false, None, 0, s[1..])
    else
      var t := Token(identBefore, quote, s);
      Attach(t.output, Split(IdentChar(s[t.length - 1]), t.quote, DepthAfter(quote, depth, s[0]), s[t.length..]))
  }

  /** Puts a text in front of the first of the pieces. */
  function Attach(head: string, pieces: seq<string>): (r: seq<string>)
    requires pieces != []
    ensures |r| == |pieces|
  {
    [head + pieces[0]] + pieces[1..]
  }

  /** The regular expression for an exclamation mark, white space and `important` at the end. */
  predicate EndsImportant(d: string) {
    && |d| >= 10
    && LowerText(d[|d| - 9..]) == "important"
    && var head := TrimRight(d[..|d| - 9]);
       head != "" && head[|head| - 1] == '!'
  }

  const SUFFIX: string := " !important"

  function Emit(d: string): string {
    if EndsImportant(d) then d else d + SUFFIX
  }

  /** Trim, drop the empty ones, mark the rest. */
  function Declarations(pieces: seq<string>): seq<string> {
    if pieces == [] then []
    else
      var d := Trim(pieces[0]);
      (if d == "" then [] else [Emit(d)]) + Declarations(pieces[1..])
  }

  function Join(ds: seq<string>): string {
    if ds == [] then ""
    else if |ds| == 1 then ds[0]
    else ds[0] + ";" + Join(ds[1..])
  }

  function Importantify(css: string): string {
    Join(Declarations(Split(false, None, 0, StripComments(css))))
  }

  function SplitAt(css: string, i: nat, quote: Option<char>, depth: nat): (r: seq<string>)
    ensures r != []
  {
    if i >= |css| then [""] else Split(IdentBefore(css, i), quote, depth, css[i..])
  }

  /** One turn of the loop of importantify that does not end a declaration. */
  method SplitTurn(css: string, i: nat, open: Option<char>, d: nat)
    returns (next: nat, quote: Option<char>, depth: nat)
    requires i < |css| && !Cuts(open, d, css[i])
    ensures i < next <= |css|
    ensures var t := Token(IdentBefore(css, i), open, css[i..]);
            next - i == t.length && quote == t.quote && depth == DepthAfter(open, d, css[i])
  {
    var c := css[i];
    quote, depth := open, d;
    if quote.Some? {
      if c == '\\' { return if i + 1 < |css| then i + 2 else i + 1, quote, depth; }
      if c == quote.value { quote := None; }
    } else if c == '\'' || c == '"' {
      quote := Some(c);
    } else if c == '(' {
      depth := depth + 1;
    } else if c == ')' {
      depth := if depth == 0 then 0 else depth - 1;
    } else {
      var end := ScanUnquotedUrl(css, i);
      if end != -1 { return end, quote, depth; }
    }
    next := i + 1;
  }

  lemma SplitAtCut(css: string, i: nat)
    requires i < |css| && css[i] == ';'
    ensures SplitAt(css, i, None, 0) == [""] + SplitAt(css, i + 1, None, 0)
  {
    var s := css[i..];
    assert s[1..] == css[i + 1..];
    assert Split(IdentBefore(css, i), None, 0, s) == [""] + Split(false, None, 0, s[1..]);
  }

  lemma SplitAtToken(css: string, i: nat, open: Option<char>, d: nat, next: nat, quote: Option<char>, depth: nat)
    requires i < next <= |css| && !Cuts(open, d, css[i])
    requires var t := Token(IdentBefore(css, i), open, css[i..]);
             next - i == t.length && quote == t.quote && depth == DepthAfter(open, d, css[i])
    ensures SplitAt(css, i, open, d) == Attach(css[i..next], SplitAt(css, next, quote, depth))
  {
    hide Split, Token, Attach, Cuts, DepthAfter, IdentChar;
    var s, n := css[i..], next - i;
    var t := Token(IdentBefore(css, i), open, s);
    assert s[n - 1] == css[next - 1];
    assert s[n..] == css[next..];
    assert t.output == css[i..next];
    SplitUnfold(IdentBefore(css, i), open, d, s);
    SplitNothing(IdentBefore(css, next), quote, depth);
  }

  lemma SplitNothing(b: bool, q: Option<char>, depth: nat)
    ensures Split(b, q, depth, []) == [""]
  {
  }

  lemma SplitUnfold(b: bool, q: Option<char>, depth: nat, s: string)
    requires s != [] && !Cuts(q, depth, s[0])
    ensures var t := Token(b, q, s);
            Split(b, q, depth, s) ==
            Attach(t.output, Split(IdentChar(s[t.length - 1]), t.quote, DepthAfter(q, depth, s[0]), s[t.length..]))
  {
    hide Token;
  }

  lemma SplitAtStart(css: string)
    ensures SplitAt(css, 0, None, 0) == Split(false, None, 0, css)
  {
    assert css[0..] == css;
  }

  /** The declarations found, the one being read and those still to be found are the whole. */
  ghost predicate Splitting(css: string, decls: seq<string>, start: nat, i: nat, quote: Option<char>, depth: nat,
                            whole: seq<string>)
    requires start <= i <= |css|
  {
    decls + Attach(css[start..i], SplitAt(css, i, quote, depth)) == whole
  }

  lemma SplittingCut(css: string, decls: seq<string>, start: nat, i: nat, whole: seq<string>)
    requires start <= i < |css| && css[i] == ';' && Splitting(css, decls, start, i, None, 0, whole)
    ensures Splitting(css, decls + [css[start..i]], i + 1, i + 1, None, 0, whole)
  {
    var piece, rest := css[start..i], SplitAt(css, i + 1, None, 0);
    SplitAtCut(css, i);
    AttachFirst(piece, rest);
    AttachNothing(css[i + 1..i + 1], rest);
  }

  lemma SplittingToken(css: string, decls: seq<string>, start: nat, i: nat, open: Option<char>, d: nat,
                       next: nat, quote: Option<char>, depth: nat, whole: seq<string>)
    requires start <= i < next <= |css| && !Cuts(open, d, css[i])
    requires var t := Token(IdentBefore(css, i), open, css[i..]);
             next - i == t.length && quote == t.quote && depth == DepthAfter(open, d, css[i])
    requires Splitting(css, decls, start, i, open, d, whole)
    ensures Splitting(css, decls, start, next, quote, depth, whole)
  {
    SplitAtToken(css, i, open, d, next, quote, depth);
    assert css[start..i] + css[i..next] == css[start..next];
    AttachTwice(css[start..i], css[i..next], SplitAt(css, next, quote, depth));
  }

  /** The splitting loop of importantify: start is where the current declaration began. */
  method SplitLoop(css: string) returns (decls: seq<string>)
    ensures decls == Split(false, None, 0, css)
  {
    hide Split, Token, Attach;
    decls := [];
    var start, i, depth := 0, 0, 0;
    var quote: Option<char> := None;
    SplitAtStart(css);
    ghost var whole := SplitAt(css, 0, None, 0);
    AttachNothing(css[0..0], whole);
    while i < |css|
      invariant start <= i <= |css|
      invariant Splitting(css, decls, start, i, quote, depth, whole)
      decreases |css| - i
    {
      if quote.None? && css[i] == ';' && depth == 0 {
        SplittingCut(css, decls, start, i, whole);
        decls := decls + [css[start..i]];
        start, i := i + 1, i + 1;
      } else {
        var next, q, d := SplitTurn(css, i, quote, depth);
        SplittingToken(css, decls, start, i, quote, depth, next, q, d, whole);
        i, quote, depth := next, q, d;
      }
    }
    AttachFirst(css[start..i], []);
    assert [""] + [] == [""] && css[start..i] == css[start..];
    decls := decls + [css[start..]];
  }

  lemma AttachFirst(head: string, rest: seq<string>)
    ensures Attach(head, [""] + rest) == [head] + rest
  {
    assert ([""] + rest)[1..] == rest;
    assert head + "" == head;
  }

  lemma AttachNothing(none: string, pieces: seq<string>)
    requires none == "" && pieces != []
    ensures Attach(none, pieces) == pieces
  {
    assert none + pieces[0] == pieces[0];
  }

  lemma AttachTwice(a: string, b: string, pieces: seq<string>)
    requires pieces != []
    ensures Attach(a, Attach(b, pieces)) == Attach(a + b, pieces)
  {
    assert a + (b + pieces[0]) == a + b + pieces[0];
  }

  /** importantify */
  method ImportantifyLoop(css: string) returns (r: string)
    ensures r == Importantify(css)
  {
    var stripped := StripCommentsLoop(css);
    var decls := SplitLoop(stripped);
    return Join(Declarations(decls));
  }
}
