/** importantify: where it splits, what it emits, and that it is idempotent. */
module ImportantLaws {
  import opened JsText
  import opened Options
  import opened Css
  import opened CssLaws

  // ---------------------------------------------------------------- declarations as texts

  /** A declaration on its own: walking it meets no comment and no separating semicolon. */
  ghost predicate Clean(b: bool, q: Option<char>, depth: nat, d: string)
    decreases |d|
  {
    d == [] ||
    ( && !Cuts(q, depth, d[0])
      && !(q.None? && StartsComment(d))
      && var t := Token(b, q, d);
         Clean(IdentChar(d[t.length - 1]), t.quote, DepthAfter(q, depth, d[0]), d[t.length..]))
  }

  /** The first chunk of d is complete: appending text cannot make it longer. */
  ghost predicate Firm(b: bool, q: Option<char>, d: string)
    requires d != []
  {
    && !(q.Some? && d == "\\")
    && (q.None? && !IsMark(d[0]) && UrlLength(b, d) > 0 ==> UrlTerminated(d))
  }

  /** A declaration that can be followed by another: clean, and at its end no string, no url
      and no bracket is open. */
  ghost predicate Closed(b: bool, q: Option<char>, depth: nat, d: string)
    decreases |d|
  {
    if d == [] then q.None? && depth == 0
    else
      && !Cuts(q, depth, d[0])
      && !(q.None? && StartsComment(d))
      && Firm(b, q, d)
      && var t := Token(b, q, d);
         Closed(IdentChar(d[t.length - 1]), t.quote, DepthAfter(q, depth, d[0]), d[t.length..])
  }

  lemma {:induction false} ClosedIsClean(b: bool, q: Option<char>, depth: nat, d: string)
    requires Closed(b, q, depth, d)
    ensures Clean(b, q, depth, d)
    decreases |d|
  {
    hide Token, Closed, Clean, Firm, DepthAfter, IdentChar, StartsComment, Cuts;
    if d == [] {
      NothingIsClean(b, q, depth);
    } else {
      ClosedStep(b, q, depth, d);
      var t := Token(b, q, d);
      ClosedIsClean(IdentChar(d[t.length - 1]), t.quote, DepthAfter(q, depth, d[0]), d[t.length..]);
      CleanFrom(b, q, depth, d);
    }
  }

  lemma {:induction false} CleanIsCommentFree(b: bool, q: Option<char>, depth: nat, d: string)
    requires Clean(b, q, depth, d)
    ensures CommentFree(b, q, d)
    decreases |d|
  {
    hide Token, Clean, CommentFree, DepthAfter, IdentChar, StartsComment, Cuts;
    if d == [] {
      NothingIsFree(b, q);
    } else {
      CleanStep(b, q, depth, d);
      var t := Token(b, q, d);
      CleanIsCommentFree(IdentChar(d[t.length - 1]), t.quote, DepthAfter(q, depth, d[0]), d[t.length..]);
      CommentFreeFrom(b, q, d, t);
    }
  }

  // ---------------------------------------------------------------- chunks and what follows them

  /** What may follow a declaration: a semicolon, the space before the added mark, or a comment. */
  predicate Follows(x: string) { x != [] && (x[0] == ';' || x[0] == ' ' || x[0] == '/') }

  /** A firm first chunk is unchanged by what follows. */
  lemma TokenAppend(b: bool, q: Option<char>, d: string, x: string)
    requires d != [] && Follows(x) && Firm(b, q, d)
    ensures Token(b, q, d + x).length == Token(b, q, d).length
    ensures Token(b, q, d + x).quote == Token(b, q, d).quote
    ensures Firm(b, q, d + x)
    ensures !(q.None? && StartsComment(d)) ==> !(q.None? && StartsComment(d + x))
  {
    var e := d + x;
    assert e[0] == d[0];
    if |d| == 1 { assert e[1] == x[0]; } else { assert e[1] == d[1]; }
    if q.None? && !IsMark(d[0]) {
      if UrlLength(b, d) > 0 {
        UrlAppend(b, d, x);
      } else {
        StillNoUrl(b, d, x);
      }
    }
  }

  lemma StillNoUrl(b: bool, d: string, x: string)
    requires d != [] && Follows(x) && UrlLength(b, d) == 0
    ensures UrlLength(b, d + x) == 0
  {
    var e := d + x;
    assert e[|d|] == x[0];
    if !b && StartsUrl(e) {
      assert StartsUrl(d) by { assert forall k :: 0 <= k < 4 ==> e[k] == d[k]; }
      UrlRefused(d);
      var w := SpaceLength(d[4..]);
      assert e[4..] == d[4..] + x;
      SpaceLengthPrefix(d[4..], x);
      assert e[4 + w] == d[4..][w];
    }
  }

  /** The first chunk of p + x, when it ends within p, is the first chunk of p. */
  lemma TokenCut(b: bool, q: Option<char>, p: string, x: string)
    requires p != [] && x != [] && (x[0] == ';' || x[0] == '/' || (|x| == 1 && IsSpace(x[0])))
    requires Token(b, q, p + x).length <= |p|
    ensures Token(b, q, p).length == Token(b, q, p + x).length
    ensures Token(b, q, p).quote == Token(b, q, p + x).quote
    ensures StartsComment(p) ==> StartsComment(p + x)
    ensures Firm(b, q, p + x) ==> Firm(b, q, p)
    ensures x[0] == ';' || x[0] == '/' ==> Firm(b, q, p)
  {
    var e := p + x;
    assert e[0] == p[0];
    assert e[..|p|] == p;
    if q.None? && !IsMark(p[0]) {
      if UrlLength(b, e) > 0 {
        ShortUrlTerminated(b, e);
        UrlCut(b, e, |p|);
      } else {
        NoUrlCut(b, p, x);
      }
    }
  }

  lemma NoUrlCut(b: bool, p: string, x: string)
    requires p != [] && x != [] && (x[0] == ';' || x[0] == '/' || (|x| == 1 && IsSpace(x[0])))
    requires UrlLength(b, p + x) == 0
    ensures UrlLength(b, p) == 0
  {
    var e := p + x;
    if !b && StartsUrl(p) {
      assert StartsUrl(e) by { assert forall k :: 0 <= k < 4 ==> e[k] == p[k]; }
      UrlRefused(e);
      var w := SpaceLength(e[4..]);
      assert e[4..] == p[4..] + x;
      assert e[4..][|p| - 4] == x[0];
      assert forall k :: 0 <= k < w ==> e[4..][..w][k] == e[4..][k];
      assert 4 + w < |p|;
      assert e[4..][..|p| - 4] == p[4..];
      SpaceCut(e[4..], |p| - 4);
      assert p[4 + w] == e[4..][w];
    }
  }

  // ---------------------------------------------------------------- splitting

  /** r are the pieces of s: either s alone and clean, or a closed declaration and then the
      pieces of what follows its semicolon. */
  ghost predicate PiecesOf(b: bool, q: Option<char>, depth: nat, s: string, r: seq<string>, tail: string) {
    if |r| <= 1 then r == [s] && Clean(b, q, depth, s)
    else
      && Closed(b, q, depth, r[0])
      && s == r[0] + ";" + tail
      && r[1..] == Split(false, None, 0, tail)
      && CommentFree(false, None, tail)
  }

  /** Every text without comments splits into such pieces. */
  lemma {:induction false} SplitFirst(b: bool, q: Option<char>, depth: nat, s: string) returns (tail: string)
    requires CommentFree(b, q, s)
    ensures PiecesOf(b, q, depth, s, Split(b, q, depth, s), tail)
    decreases |s|
  {
    hide Token, Closed, Split, Attach, PiecesOf, DepthAfter, IdentChar, StartsComment;
    tail := [];
    if s == [] {
      EmptyPieces(b, q, depth);
    } else if Cuts(q, depth, s[0]) {
      tail := s[1..];
      CutPieces(b, s);
    } else {
      var t := Token(b, q, s);
      var b', d', rest := IdentChar(s[t.length - 1]), DepthAfter(q, depth, s[0]), s[t.length..];
      tail := SplitFirst(b', t.quote, d', rest);
      SplitUnfold(b, q, depth, s);
      PiecesAttach(b, q, depth, s, Split(b', t.quote, d', rest), tail);
    }
  }

  lemma EmptyPieces(b: bool, q: Option<char>, depth: nat)
    ensures PiecesOf(b, q, depth, [], Split(b, q, depth, []), [])
  {
    SplitNothing(b, q, depth);
  }

  lemma CutPieces(b: bool, s: string)
    requires s != [] && s[0] == ';' && CommentFree(b, None, s)
    ensures PiecesOf(b, None, 0, s, Split(b, None, 0, s), s[1..])
  {
    hide Token, Attach, CommentFree;
    SemicolonStep(b, s);
    SemicolonCuts(b, s);
    assert s == "" + ";" + s[1..];
  }

  lemma PiecesAttach(b: bool, q: Option<char>, depth: nat, s: string, inner: seq<string>, tail: string)
    requires s != [] && inner != [] && !Cuts(q, depth, s[0]) && !(q.None? && StartsComment(s))
    requires var t := Token(b, q, s);
             PiecesOf(IdentChar(s[t.length - 1]), t.quote, DepthAfter(q, depth, s[0]), s[t.length..], inner, tail)
    ensures PiecesOf(b, q, depth, s, Attach(Token(b, q, s).output, inner), tail)
  {
    hide Token, Closed, Split, CommentFree, Firm, DepthAfter, IdentChar, Cuts;
    var t := Token(b, q, s);
    assert s == t.output + s[t.length..];
    if |inner| > 1 {
      FirstPiece(b, q, depth, s, inner[0], tail);
      assert s == t.output + inner[0] + ";" + tail;
    }
  }

  lemma SemicolonStep(b: bool, s: string)
    requires s != [] && s[0] == ';' && CommentFree(b, None, s)
    ensures CommentFree(false, None, s[1..])
  {
    assert UrlLength(b, s) == 0;
  }

  /** Putting the first chunk back in front of a closed piece gives a closed piece. */
  lemma FirstPiece(b: bool, q: Option<char>, depth: nat, s: string, piece: string, tail: string)
    requires s != [] && !Cuts(q, depth, s[0]) && !(q.None? && StartsComment(s))
    requires var t := Token(b, q, s);
             && s[t.length..] == piece + ";" + tail
             && Closed(IdentChar(s[t.length - 1]), t.quote, DepthAfter(q, depth, s[0]), piece)
    ensures Closed(b, q, depth, Token(b, q, s).output + piece)
  {
    hide Token, Firm, Closed, DepthAfter, IdentChar, Cuts;
    var t := Token(b, q, s);
    var p, x := t.output + piece, ";" + tail;
    assert s == s[..t.length] + s[t.length..];
    assert s == p + x;
    TokenCut(b, q, p, x);
    assert p[0] == s[0];
    assert p[t.length - 1] == s[t.length - 1];
    assert p[t.length..] == piece;
    ClosedFrom(b, q, depth, p, t);
  }

  lemma ClosedFrom(b: bool, q: Option<char>, depth: nat, p: string, t: Chunk)
    requires p != [] && !Cuts(q, depth, p[0]) && !(q.None? && StartsComment(p)) && Firm(b, q, p)
    requires 0 < t.length <= |p| && t.length == Token(b, q, p).length && t.quote == Token(b, q, p).quote
    requires Closed(IdentChar(p[t.length - 1]), t.quote, DepthAfter(q, depth, p[0]), p[t.length..])
    ensures Closed(b, q, depth, p)
  {
    hide Token, Firm, DepthAfter, IdentChar, Cuts;
  }

  /** A closed declaration followed by a semicolon is split off as it is. */
  lemma {:induction false} ClosedSplits(b: bool, q: Option<char>, depth: nat, d: string, x: string)
    requires Closed(b, q, depth, d) && x != [] && x[0] == ';'
    ensures Split(b, q, depth, d + x) == [d] + Split(false, None, 0, x[1..])
    decreases |d|
  {
    hide Split, Token, Attach, UrlLength, Closed, Firm, DepthAfter, IdentChar, StartsComment, Cuts;
    if d == [] {
      assert d + x == x;
      NothingOpen(b, q, depth);
      SemicolonCuts(b, x);
    } else {
      ClosedStep(b, q, depth, d);
      var t := Token(b, q, d);
      var b', d', rest := IdentChar(d[t.length - 1]), DepthAfter(q, depth, d[0]), d[t.length..];
      ClosedSplits(b', t.quote, d', rest, x);
      SplitFollowed(b, q, depth, d, x, t);
      AttachPiece(t.output, rest, Split(false, None, 0, x[1..]));
      assert t.output + rest == d;
    }
  }

  lemma NothingOpen(b: bool, q: Option<char>, depth: nat)
    ensures Closed(b, q, depth, []) <==> q.None? && depth == 0
  {
  }

  lemma SemicolonCuts(b: bool, x: string)
    requires x != [] && x[0] == ';'
    ensures Split(b, None, 0, x) == [""] + Split(false, None, 0, x[1..])
  {
  }

  lemma SplitFollowed(b: bool, q: Option<char>, depth: nat, d: string, x: string, t: Chunk)
    requires d != [] && Firm(b, q, d) && Follows(x) && !Cuts(q, depth, d[0]) && t == Token(b, q, d)
    ensures Split(b, q, depth, d + x)
         == Attach(t.output, Split(IdentChar(d[t.length - 1]), t.quote, DepthAfter(q, depth, d[0]), d[t.length..] + x))
  {
    AppendChunk(b, q, d, x);
    SplitUnfold(b, q, depth, d + x);
  }

  lemma AttachPiece(head: string, piece: string, more: seq<string>)
    ensures Attach(head, [piece] + more) == [head + piece] + more
  {
    assert ([piece] + more)[1..] == more;
  }

  /** The first chunk of a firm text is the first chunk of any longer one. */
  lemma AppendChunk(b: bool, q: Option<char>, d: string, x: string)
    requires d != [] && Firm(b, q, d) && Follows(x)
    ensures var s, t := d + x, Token(b, q, d);
            && Token(b, q, s) == t
            && s[0] == d[0] && s[t.length - 1] == d[t.length - 1]
            && s[t.length..] == d[t.length..] + x
            && (!(q.None? && StartsComment(d)) ==> !(q.None? && StartsComment(s)))
  {
    var s, t := d + x, Token(b, q, d);
    TokenAppend(b, q, d, x);
    assert s[..t.length] == d[..t.length];
  }

  /** A comment-free text after a closed declaration and a semicolon stays comment-free. */
  lemma {:induction false} ClosedCommentFree(b: bool, q: Option<char>, depth: nat, d: string, x: string)
    requires Closed(b, q, depth, d) && x != [] && x[0] == ';' && CommentFree(false, None, x[1..])
    ensures CommentFree(b, q, d + x)
    decreases |d|
  {
    hide Token, Closed, CommentFree, Firm, DepthAfter, IdentChar, StartsComment, Cuts;
    if d == [] {
      assert d + x == x;
      NothingOpen(b, q, depth);
      SemicolonFree(b, x);
    } else {
      ClosedStep(b, q, depth, d);
      var t := Token(b, q, d);
      ClosedCommentFree(IdentChar(d[t.length - 1]), t.quote, DepthAfter(q, depth, d[0]), d[t.length..], x);
      AppendChunk(b, q, d, x);
      CommentFreeFrom(b, q, d + x, t);
    }
  }

  lemma SemicolonFree(b: bool, x: string)
    requires x != [] && x[0] == ';' && CommentFree(false, None, x[1..])
    ensures CommentFree(b, None, x)
  {
    assert UrlLength(b, x) == 0;
  }

  lemma CleanStep(b: bool, q: Option<char>, depth: nat, d: string)
    requires d != [] && Clean(b, q, depth, d)
    ensures var t := Token(b, q, d);
            && !Cuts(q, depth, d[0]) && !(q.None? && StartsComment(d))
            && Clean(IdentChar(d[t.length - 1]), t.quote, DepthAfter(q, depth, d[0]), d[t.length..])
  {
    hide Token;
  }

  lemma ClosedStep(b: bool, q: Option<char>, depth: nat, d: string)
    requires d != [] && Closed(b, q, depth, d)
    ensures var t := Token(b, q, d);
            && !Cuts(q, depth, d[0]) && !(q.None? && StartsComment(d)) && Firm(b, q, d)
            && Closed(IdentChar(d[t.length - 1]), t.quote, DepthAfter(q, depth, d[0]), d[t.length..])
  {
    hide Token;
  }

  /** A clean declaration is one piece. */
  lemma {:induction false} CleanIsOnePiece(b: bool, q: Option<char>, depth: nat, d: string)
    requires Clean(b, q, depth, d)
    ensures Split(b, q, depth, d) == [d]
    decreases |d|
  {
    hide *;
    if d == [] {
      SplitNothing(b, q, depth);
    } else {
      CleanStep(b, q, depth, d);
      var t := Token(b, q, d);
      CleanIsOnePiece(IdentChar(d[t.length - 1]), t.quote, DepthAfter(q, depth, d[0]), d[t.length..]);
      SplitUnfold(b, q, depth, d);
      AttachPiece(t.output, d[t.length..], []);
      assert [d[t.length..]] + [] == [d[t.length..]];
      assert d == d[..t.length] + d[t.length..];
    }
  }

  // ---------------------------------------------------------------- trimming and marking

  /** White space at the start of a declaration changes nothing. */
  lemma {:induction false} DropLeft(d: string)
    ensures Closed(false, None, 0, d) ==> Closed(false, None, 0, TrimLeft(d))
    ensures Clean(false, None, 0, d) ==> Clean(false, None, 0, TrimLeft(d))
    decreases |d|
  {
    if d != [] && IsSpace(d[0]) {
      SpaceToken(d);
      DropLeft(d[1..]);
    }
  }

  lemma SpaceToken(d: string)
    requires d != [] && IsSpace(d[0])
    ensures Token(false, None, d) == Chunk(1, d[..1], None)
    ensures !IdentChar(d[0]) && !StartsComment(d) && DepthAfter(None, 0, d[0]) == 0
  {
  }

  lemma {:induction false} ClosedDropLast(b: bool, q: Option<char>, depth: nat, d: string, c: char)
    requires IsSpace(c) && Closed(b, q, depth, d + [c]) && (q.Some? ==> IsMark(q.value))
    ensures Closed(b, q, depth, d)
    decreases |d|
  {
    hide *;
    var e := d + [c];
    ClosedStep(b, q, depth, e);
    var t := Token(b, q, e);
    if d == [] {
      assert e == [c];
      SpaceAlone(b, q, depth, c);
    } else {
      assert e[0] == d[0];
      if t.length == |e| {
        assert e[t.length..] == [];
        NotWhole(b, q, depth, d, c);
      } else {
        TokenCut(b, q, d, [c]);
        assert e[t.length - 1] == d[t.length - 1];
        assert e[t.length..] == d[t.length..] + [c];
        TokenQuote(b, q, e);
        ClosedDropLast(IdentChar(e[t.length - 1]), t.quote, DepthAfter(q, depth, e[0]), d[t.length..], c);
        ClosedFrom(b, q, depth, d, Token(b, q, d));
      }
    }
  }

  lemma TokenQuote(b: bool, q: Option<char>, d: string)
    requires d != [] && (q.Some? ==> IsMark(q.value))
    ensures Token(b, q, d).quote.Some? ==> IsMark(Token(b, q, d).quote.value)
  {
  }

  lemma SpaceAlone(b: bool, q: Option<char>, depth: nat, c: char)
    requires IsSpace(c) && Closed(b, q, depth, [c]) && (q.Some? ==> IsMark(q.value))
    ensures Closed(b, q, depth, [])
  {
    assert UrlLength(b, [c]) == 0;
    assert [c][1..] == [];
  }

  /** A closed declaration that ends in white space has that space as a chunk of its own. */
  lemma NotWhole(b: bool, q: Option<char>, depth: nat, d: string, c: char)
    requires d != [] && IsSpace(c) && Token(b, q, d + [c]).length == |d| + 1
    ensures !Closed(b, q, depth, d + [c])
  {
    hide UrlLength, Token, Firm, DepthAfter, IdentChar, StartsComment, Cuts;
    WholeChunk(b, q, d, c);
    assert (d + [c])[|d| + 1..] == [];
  }

  /** A first chunk that swallows a final white-space character is an escape or an open url. */
  lemma WholeChunk(b: bool, q: Option<char>, d: string, c: char)
    requires d != [] && IsSpace(c) && Token(b, q, d + [c]).length == |d| + 1
    ensures q.Some? ==> d == "\\" && Token(b, q, d + [c]).quote == q
    ensures q.None? ==> !Firm(b, q, d + [c]) && UrlLength(b, d) == |d| && !IsMark(d[0])
  {
    hide SpaceLength;
    var e := d + [c];
    assert e[0] == d[0];
    if q.None? {
      assert UrlLength(b, e) == |e|;
      assert |d| >= 4 by { assert e[|d|] == c; }
      assert StartsUrl(d) by { assert forall k :: 0 <= k < 4 ==> e[k] == d[k]; }
      var w := 4 + SpaceLength(e[4..]);
      assert w < |e| ==> e[w..][|e| - w - 1] == e[|e| - 1];
      assert !UrlTerminated(e);
      OpenUrlCut(b, d, c);
    }
  }

  /** An open url stays an open url without its last character. */
  lemma OpenUrlCut(b: bool, d: string, c: char)
    requires StartsUrl(d) && IsSpace(c)
    requires UrlLength(b, d + [c]) == |d| + 1 && !UrlTerminated(d + [c])
    ensures UrlLength(b, d) == |d|
  {
    var e := d + [c];
    assert e[4..] == d[4..] + [c];
    var w := SpaceLength(d[4..]);
    if 4 + w < |d| {
      SpaceLengthPrefix(d[4..], [c]);
      assert e[4 + w] == d[4 + w];
      assert e[4 + w..] == d[4 + w..] + [c];
      if BodyEnd(d[4 + w..]).Some? { BodyEndPrefix(d[4 + w..], [c]); }
    } else {
      assert d[4 + w..] == [];
    }
  }

  lemma {:induction false} CleanDropLast(b: bool, q: Option<char>, depth: nat, d: string, c: char)
    requires IsSpace(c) && Clean(b, q, depth, d + [c])
    ensures Clean(b, q, depth, d)
    decreases |d|
  {
    hide *;
    var e := d + [c];
    CleanStep(b, q, depth, e);
    var t := Token(b, q, e);
    if d == [] {
      NothingIsClean(b, q, depth);
    } else {
      assert e[0] == d[0];
      if t.length == |e| {
        WholeIsClean(b, q, depth, d, c);
      } else {
        TokenCut(b, q, d, [c]);
        assert e[t.length - 1] == d[t.length - 1];
        assert e[t.length..] == d[t.length..] + [c];
        CleanDropLast(IdentChar(e[t.length - 1]), t.quote, DepthAfter(q, depth, e[0]), d[t.length..], c);
        CleanFrom(b, q, depth, d);
      }
    }
  }

  lemma NothingIsClean(b: bool, q: Option<char>, depth: nat)
    ensures Clean(b, q, depth, [])
  {
  }

  lemma CleanFrom(b: bool, q: Option<char>, depth: nat, d: string)
    requires d != [] && !Cuts(q, depth, d[0]) && !(q.None? && StartsComment(d))
    requires var t := Token(b, q, d);
             Clean(IdentChar(d[t.length - 1]), t.quote, DepthAfter(q, depth, d[0]), d[t.length..])
    ensures Clean(b, q, depth, d)
  {
    hide Token;
  }

  /** Without the white space it swallowed, the chunk is still the whole declaration. */
  lemma WholeIsClean(b: bool, q: Option<char>, depth: nat, d: string, c: char)
    requires d != [] && IsSpace(c) && Token(b, q, d + [c]).length == |d| + 1
    requires !Cuts(q, depth, d[0]) && !(q.None? && StartsComment(d + [c]))
    ensures Clean(b, q, depth, d)
  {
    hide Clean, UrlLength, DepthAfter, IdentChar, Cuts;
    WholeChunk(b, q, d, c);
    assert Token(b, q, d).length == |d|;
    assert StartsComment(d) ==> StartsComment(d + [c]);
    assert d[|d|..] == [];
    NothingIsClean(IdentChar(d[|d| - 1]), Token(b, q, d).quote, DepthAfter(q, depth, d[0]));
    CleanFrom(b, q, depth, d);
  }

  lemma {:induction false} DropRight(d: string)
    ensures Closed(false, None, 0, d) ==> Closed(false, None, 0, TrimRight(d))
    ensures Clean(false, None, 0, d) ==> Clean(false, None, 0, TrimRight(d))
    decreases |d|
  {
    if d != [] && IsSpace(d[|d| - 1]) {
      var n := |d| - 1;
      assert d == d[..n] + [d[n]];
      if Closed(false, None, 0, d) { ClosedDropLast(false, None, 0, d[..n], d[n]); }
      if Clean(false, None, 0, d) { CleanDropLast(false, None, 0, d[..n], d[n]); }
      DropRight(d[..n]);
    }
  }

  /** Characters that no scanner reacts to. */
  predicate Dull(x: string) {
    forall k :: 0 <= k < |x| ==>
      !IsMark(x[k]) && x[k] != '(' && x[k] != ')' && x[k] != ';' && x[k] != '/' && x[k] != '\\'
      && LowerChar(x[k]) != 'u'
  }

  lemma {:induction false} DullClean(b: bool, q: Option<char>, depth: nat, x: string)
    requires Dull(x)
    ensures q.Some? && IsMark(q.value) ==> Clean(b, q, depth, x)
    ensures q.None? ==> Clean(b, q, depth, x)
    ensures q.None? && depth == 0 ==> Closed(b, q, depth, x)
    decreases |x|
  {
    if x != [] { DullClean(IdentChar(x[0]), q, depth, x[1..]); }
  }

  lemma SuffixDull()
    ensures Dull(SUFFIX) && Follows(SUFFIX)
  {
  }

  /** Marking a closed declaration leaves it closed. */
  lemma {:induction false} ClosedMarked(b: bool, q: Option<char>, depth: nat, d: string)
    requires Closed(b, q, depth, d)
    ensures Closed(b, q, depth, d + SUFFIX)
    decreases |d|
  {
    hide Token, Closed, Clean, Firm, DepthAfter, IdentChar, StartsComment, Cuts, SUFFIX;
    SuffixDull();
    if d == [] {
      NothingOpen(b, q, depth);
      DullClean(b, q, depth, SUFFIX);
      assert d + SUFFIX == SUFFIX;
    } else {
      ClosedStep(b, q, depth, d);
      var t := Token(b, q, d);
      ClosedMarked(IdentChar(d[t.length - 1]), t.quote, DepthAfter(q, depth, d[0]), d[t.length..]);
      TokenAppend(b, q, d, SUFFIX);
      AppendChunk(b, q, d, SUFFIX);
      ClosedFrom(b, q, depth, d + SUFFIX, t);
    }
  }

  /** Marking a clean declaration leaves it clean, even if a string, url or bracket is open. */
  lemma {:induction false} CleanMarked(b: bool, q: Option<char>, depth: nat, d: string)
    requires Clean(b, q, depth, d) && (q.Some? ==> IsMark(q.value))
    ensures Clean(b, q, depth, d + SUFFIX)
    decreases |d|
  {
    hide Token, Closed, Clean, Firm, DepthAfter, IdentChar, StartsComment, Cuts, SUFFIX;
    SuffixDull();
    if d == [] {
      DullClean(b, q, depth, SUFFIX);
      assert d + SUFFIX == SUFFIX;
    } else {
      CleanStep(b, q, depth, d);
      if Firm(b, q, d) {
        var t := Token(b, q, d);
        TokenQuote(b, q, d);
        CleanMarked(IdentChar(d[t.length - 1]), t.quote, DepthAfter(q, depth, d[0]), d[t.length..]);
        AppendChunk(b, q, d, SUFFIX);
        CleanFrom(b, q, depth, d + SUFFIX);
      } else {
        OpenMarked(b, q, depth, d);
      }
    }
  }

  /** An escape without its character, or an open url, swallows the start of the mark. */
  lemma OpenMarked(b: bool, q: Option<char>, depth: nat, d: string)
    requires d != [] && !Firm(b, q, d) && !Cuts(q, depth, d[0]) && (q.Some? ==> IsMark(q.value))
    requires !(q.None? && StartsComment(d))
    ensures Clean(b, q, depth, d + SUFFIX)
  {
    hide Clean, UrlLength, IdentChar;
    SuffixDull();
    var e := d + SUFFIX;
    var t := Token(b, q, e);
    assert e[0] == d[0];
    assert |d| > 1 ==> e[1] == d[1];
    if q.Some? {
      assert t.length == 2 && e[2..] == SUFFIX[1..];
      DullClean(IdentChar(e[1]), q, depth, SUFFIX[1..]);
    } else {
      OpenUrlMarked(b, d);
      assert t.length == |e| && e[|e|..] == [];
      NothingIsClean(IdentChar(e[|e| - 1]), t.quote, DepthAfter(q, depth, e[0]));
    }
    CleanFrom(b, q, depth, e);
  }

  /** An open url swallows the whole mark. */
  lemma OpenUrlMarked(b: bool, d: string)
    requires UrlLength(b, d) > 0 && !UrlTerminated(d)
    ensures UrlLength(b, d + SUFFIX) == |d + SUFFIX|
  {
    hide BodyEnd, SpaceLength;
    SuffixDull();
    var e := d + SUFFIX;
    assert StartsUrl(e) by { assert forall k :: 0 <= k < 4 ==> e[k] == d[k]; }
    if 4 + SpaceLength(d[4..]) < |d| {
      OpenBody(b, d, SUFFIX);
    } else {
      OpenSpaces(d);
    }
  }

  lemma OpenBody(b: bool, d: string, x: string)
    requires UrlLength(b, d) > 0 && !UrlTerminated(d) && Dull(x)
    requires 4 + SpaceLength(d[4..]) < |d|
    ensures StartsUrl(d + x)
    ensures var w := 4 + SpaceLength((d + x)[4..]);
            w < |d + x| && !IsMark((d + x)[w]) && BodyEnd((d + x)[w..]).None?
  {
    var e, w := d + x, 4 + SpaceLength(d[4..]);
    assert e[4..] == d[4..] + x;
    SpaceLengthPrefix(d[4..], x);
    assert e[w] == d[w];
    assert e[w..] == d[w..] + x;
    BodyEndOpen(d[w..], x);
  }

  lemma OpenSpaces(d: string)
    requires StartsUrl(d) && 4 + SpaceLength(d[4..]) == |d|
    ensures var e := d + SUFFIX;
            var w := 4 + SpaceLength(e[4..]);
            w < |e| && !IsMark(e[w]) && BodyEnd(e[w..]).None?
  {
    SuffixDull();
    var e, x := d + SUFFIX, SUFFIX[1..];
    var t := d[4..] + " ";
    SpacesOnly(d[4..]);
    assert e[4..] == t + x;
    SpaceLengthPrefix(t, x);
    assert e[|d| + 1..] == [] + x;
    assert e[|d| + 1] == '!';
    BodyEndOpen([], x);
  }

  lemma {:induction false} SpacesOnly(t: string)
    requires SpaceLength(t) == |t|
    ensures SpaceLength(t + " ") == |t| + 1
    decreases |t|
  {
    if t == [] {
      assert t + " " == " ";
    } else {
      assert (t + " ")[1..] == t[1..] + " ";
      SpacesOnly(t[1..]);
    }
  }

  /** The added mark is recognised. */
  lemma SuffixRecognised(d: string)
    ensures EndsImportant(d + SUFFIX)
  {
    hide LowerText;
    var e := d + SUFFIX;
    assert e[|e| - 9..] == "important";
    LowerIsItself("important");
    var head := e[..|e| - 9];
    assert head[|head| - 1] == '!';
    assert TrimRight(head) == head;
  }

  // ---------------------------------------------------------------- importantify

  /** Every declaration but the last is closed, and the last is clean. */
  ghost predicate Good(ds: seq<string>) {
    if ds == [] then true
    else if |ds| == 1 then Clean(false, None, 0, ds[0])
    else Closed(false, None, 0, ds[0]) && Good(ds[1..])
  }

  /** Trimmed, not empty and marked. */
  ghost predicate Finished(d: string) { Tight(d) && EndsImportant(d) }

  /** What Declarations makes of one piece. */
  lemma EmitPiece(p: string)
    requires Trim(p) != ""
    ensures Finished(Emit(Trim(p)))
    ensures Closed(false, None, 0, p) ==> Closed(false, None, 0, Emit(Trim(p)))
    ensures Clean(false, None, 0, p) ==> Clean(false, None, 0, Emit(Trim(p)))
  {
    hide TrimLeft, TrimRight, Emit, Finished, Closed, Clean;
    var d := Trim(p);
    var padL := TrimLeftSplit(p);
    var padR := TrimRightSplit(TrimLeft(p));
    assert TrimLeft(p)[0] == d[0];
    DropLeft(p);
    DropRight(TrimLeft(p));
    EmitFinished(d);
    EmitKeeps(d);
  }

  lemma EmitFinished(d: string)
    requires Tight(d)
    ensures Finished(Emit(d))
  {
    hide EndsImportant;
    SuffixRecognised(d);
  }

  lemma EmitKeeps(d: string)
    ensures Closed(false, None, 0, d) ==> Closed(false, None, 0, Emit(d))
    ensures Clean(false, None, 0, d) ==> Clean(false, None, 0, Emit(d))
  {
    hide EndsImportant, Closed, Clean;
    if Closed(false, None, 0, d) { ClosedMarked(false, None, 0, d); }
    if Clean(false, None, 0, d) { CleanMarked(false, None, 0, d); }
  }

  /** The declarations emitted for a comment-free text. */
  lemma {:induction false} EmittedGood(s: string)
    requires CommentFree(false, None, s)
    ensures var ds := Declarations(Split(false, None, 0, s));
            Good(ds) && forall d :: d in ds ==> Finished(d)
    decreases |s|
  {
    var r := Split(false, None, 0, s);
    var tail := SplitFirst(false, None, 0, s);
    if Trim(r[0]) != "" { EmitPiece(r[0]); }
    if |r| == 1 {
      assert r[1..] == [];
    } else {
      EmittedGood(tail);
      var d, more := Emit(Trim(r[0])), Declarations(r[1..]);
      if Trim(r[0]) != "" {
        ClosedIsClean(false, None, 0, d);
        assert ([d] + more)[1..] == more;
      } else {
        assert [] + more == more;
      }
    }
  }

  /** Joining good declarations and splitting again gives the declarations. */
  lemma {:induction false} SplitJoin(ds: seq<string>)
    requires Good(ds) && ds != []
    ensures Split(false, None, 0, Join(ds)) == ds
    ensures CommentFree(false, None, Join(ds))
  {
    hide Attach, Split, Clean, Closed, CommentFree;
    if |ds| == 1 {
      CleanIsOnePiece(false, None, 0, ds[0]);
      CleanIsCommentFree(false, None, 0, ds[0]);
    } else {
      SplitJoin(ds[1..]);
      var x := ";" + Join(ds[1..]);
      assert x[1..] == Join(ds[1..]);
      assert Join(ds) == ds[0] + x;
      ClosedSplits(false, None, 0, ds[0], x);
      ClosedCommentFree(false, None, 0, ds[0], x);
    }
  }

  /** Finished declarations are emitted unchanged. */
  lemma {:induction false} DeclarationsStable(ds: seq<string>)
    requires forall d :: d in ds ==> Finished(d)
    ensures Declarations(ds) == ds
  {
    hide Trim, EndsImportant;
    if ds != [] {
      assert ds[0] in ds;
      TrimPadded([], ds[0], []);
      assert [] + ds[0] + [] == ds[0];
      DeclarationsStable(ds[1..]);
      assert ds == [ds[0]] + ds[1..];
    }
  }

  /** importantify is idempotent. */
  lemma {:induction false} ImportantifyIdempotent(css: string)
    ensures Importantify(Importantify(css)) == Importantify(css)
  {
    var stripped := StripComments(css);
    StripIdempotent(css);
    EmittedGood(stripped);
    var ds := Declarations(Split(false, None, 0, stripped));
    if ds == [] {
      assert Declarations([""]) == [] by { assert [""][1..] == []; }
    } else {
      SplitJoin(ds);
      StripIdentity(false, None, Join(ds));
      DeclarationsStable(ds);
    }
  }

  /** Reading the result back as declarations: every one is trimmed and ends in the mark, none
      but the last leaves a string, url or bracket open, and no comment is left. */
  lemma {:induction false} ImportantifyReadsBack(css: string)
    requires Importantify(css) != ""
    ensures var ds := Split(false, None, 0, Importantify(css));
            && Good(ds)
            && CommentFree(false, None, Importantify(css))
            && (forall d :: d in ds ==> Tight(d) && EndsImportant(d))
            && ds == Declarations(Split(false, None, 0, StripComments(css)))
  {
    var stripped := StripComments(css);
    StripIdempotent(css);
    EmittedGood(stripped);
    SplitJoin(Declarations(Split(false, None, 0, stripped)));
  }

  /** Splitting is exact: the pieces put back together are the text, every piece that is cut
      off is closed, so no cut falls inside a string, an unquoted url or brackets, and any
      other way to write the text as closed pieces is the same. */
  lemma {:induction false} SplitExact(s: string)
    requires CommentFree(false, None, s)
    ensures Join(Split(false, None, 0, s)) == s && Good(Split(false, None, 0, s))
    ensures forall ds :: Good(ds) && ds != [] && Join(ds) == s ==> ds == Split(false, None, 0, s)
    decreases |s|
  {
    SplitRejoins(s);
    forall ds | Good(ds) && ds != [] && Join(ds) == s ensures ds == Split(false, None, 0, s) {
      SplitJoin(ds);
    }
  }

  lemma {:induction false} SplitRejoins(s: string)
    requires CommentFree(false, None, s)
    ensures Join(Split(false, None, 0, s)) == s && Good(Split(false, None, 0, s))
    decreases |s|
  {
    var r := Split(false, None, 0, s);
    var tail := SplitFirst(false, None, 0, s);
    if |r| > 1 { SplitRejoins(tail); }
  }
}
