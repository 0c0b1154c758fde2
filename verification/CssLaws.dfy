/** What the CSS rewriting promises: both passes are idempotent, the comment stripper leaves
    exactly the comment-free texts alone, and declarations are split only outside strings,
    unquoted urls and brackets. */
module CssLaws {
  import opened JsText
  import opened Options
  import opened Css

  // ---------------------------------------------------------------- comment-free texts

  /** The walk meets no comment outside a string or an unquoted url. */
  ghost predicate CommentFree(identBefore: bool, quote: Option<char>, s: string)
    decreases |s|
  {
    s == [] ||
    ( && !(quote.None? && StartsComment(s))
      && var t := Token(identBefore, quote, s);
         CommentFree(IdentChar(s[t.length - 1]), t.quote, s[t.length..]))
  }

  lemma CommentFreeStep(b: bool, q: Option<char>, s: string)
    requires s != [] && CommentFree(b, q, s)
    ensures var t := Token(b, q, s);
            Next(b, q, s) == t && CommentFree(IdentChar(s[t.length - 1]), t.quote, s[t.length..])
  {
    hide Token;
  }

  /** A comment-free text is left as it is. */
  lemma {:induction false} StripIdentity(b: bool, q: Option<char>, s: string)
    requires CommentFree(b, q, s)
    ensures Strip(b, q, s) == s
    decreases |s|
  {
    hide *;
    if s == [] {
      StripNothing(b, q);
    } else {
      var c := Token(b, q, s);
      CommentFreeStep(b, q, s);
      StripIdentity(IdentChar(s[c.length - 1]), c.quote, s[c.length..]);
      StripUnfold(b, q, s);
      assert s == s[..c.length] + s[c.length..];
    }
  }

  /** The first character survives, or was the start of a comment and became a space. */
  lemma StripHead(b: bool, q: Option<char>, s: string)
    ensures var r := Strip(b, q, s);
            if s == [] then r == []
            else r != [] && r[0] == if q.None? && StartsComment(s) then ' ' else s[0]
  {
  }

  /** An ordinary character outside quotes is copied alone. */
  lemma StripOrdinary(b: bool, s: string)
    requires s != [] && !IsMark(s[0]) && !StartsComment(s) && UrlLength(b, s) == 0
    ensures Strip(b, None, s) == [s[0]] + Strip(IdentChar(s[0]), None, s[1..])
  {
    StripUnfold(b, None, s);
    assert Next(b, None, s).output == s[..1] == [s[0]];
  }

  /** White space before a quotation mark is copied, and then the mark. */
  lemma {:induction false} StripSpaces(b: bool, s: string)
    requires var w := SpaceLength(s); w < |s| && IsMark(s[w])
    ensures var w, r := SpaceLength(s), Strip(b, None, s);
            w < |r| && SpaceLength(r) == w && IsMark(r[w])
    decreases |s|
  {
    StripHead(b, None, s);
    if IsSpace(s[0]) {
      StripOrdinary(b, s);
      StripSpaces(IdentChar(s[0]), s[1..]);
      assert Strip(b, None, s)[1..] == Strip(IdentChar(s[0]), None, s[1..]);
    }
  }

  /** Stripping what follows does not turn an ordinary character into the start of a url. */
  lemma NoNewUrl(b: bool, s: string)
    requires s != [] && !IsMark(s[0]) && !StartsComment(s) && UrlLength(b, s) == 0
    ensures UrlLength(b, Strip(b, None, s)) == 0
  {
    hide Strip, BodyEnd, SpaceLength;
    var r := Strip(b, None, s);
    StripOrdinary(b, s);
    if !b && StartsUrl(r) {
      var r1 := Strip(true, None, s[1..]);
      assert r[1..] == r1;
      StripHead(true, None, s[1..]);
      StripOrdinary(true, s[1..]);
      var r2 := Strip(true, None, s[2..]);
      assert r1[1..] == r2 && s[1..][1..] == s[2..];
      StripHead(true, None, s[2..]);
      StripOrdinary(true, s[2..]);
      var r3 := Strip(true, None, s[3..]);
      assert r2[1..] == r3 && s[2..][1..] == s[3..];
      StripHead(true, None, s[3..]);
      StripOrdinary(true, s[3..]);
      var r4 := Strip(false, None, s[4..]);
      assert r3[1..] == r4 && s[3..][1..] == s[4..];
      assert r[4..] == r4;
      assert StartsUrl(s);
      UrlRefused(s);
      StripSpaces(false, s[4..]);
      var w := SpaceLength(r4);
      assert r[4 + w] == r4[w];
    }
  }

  /** A text that starts a url but is not an unquoted one has a quotation mark in it. */
  lemma UrlRefused(s: string)
    requires StartsUrl(s) && UrlLength(false, s) == 0
    ensures var w := SpaceLength(s[4..]); w < |s[4..]| && IsMark(s[4..][w])
  {
    var w := SpaceLength(s[4..]);
    if 4 + w < |s| { assert s[4 + w] == s[4..][w]; }
  }

  // ---------------------------------------------------------------- urls and what follows them

  /** The url at the start of s ends with its closing bracket. */
  ghost predicate UrlTerminated(s: string)
    requires StartsUrl(s)
  {
    BodyEnd(s[4 + SpaceLength(s[4..])..]).Some?
  }

  lemma {:induction false} BodyEndPrefix(t: string, x: string)
    requires BodyEnd(t).Some?
    ensures BodyEnd(t + x) == BodyEnd(t)
    decreases |t|
  {
    assert (t + x)[0] == t[0];
    if t[0] != ')' {
      var n := if t[0] == '\\' && |t| > 1 then 2 else 1;
      assert (t + x)[n..] == t[n..] + x;
      BodyEndPrefix(t[n..], x);
    }
  }

  /** Everything after the end of a url body is irrelevant to where it ends. */
  lemma {:induction false} BodyEndCut(t: string, k: nat)
    requires k <= |t| && BodyEnd(t).Some? && BodyEnd(t).value <= k
    ensures BodyEnd(t[..k]) == BodyEnd(t)
    decreases |t|
  {
    var m := BodyEnd(t).value;
    assert t[..k][0] == t[0];
    if t[0] != ')' {
      var n := if t[0] == '\\' && |t| > 1 then 2 else 1;
      assert BodyEnd(t[n..]).Some? && BodyEnd(t[n..]).value == m - n;
      assert t[..k][n..] == t[n..][..k - n];
      BodyEndCut(t[n..], k - n);
    }
  }

  lemma {:induction false} BodyEndOpen(t: string, x: string)
    requires BodyEnd(t).None? && forall k :: 0 <= k < |x| ==> x[k] != ')'
    ensures BodyEnd(t + x).None?
    decreases |t| + |x|
  {
    if t != [] {
      assert (t + x)[0] == t[0];
      var n := if t[0] == '\\' && |t| > 1 then 2 else 1;
      if t[0] == '\\' && |t| == 1 {
        assert t + x == [t[0]] + x;
        if x != [] {
          assert (t + x)[2..] == [] + x[1..];
          BodyEndOpen([], x[1..]);
        }
      } else {
        assert (t + x)[n..] == t[n..] + x;
        BodyEndOpen(t[n..], x);
      }
    } else {
      assert t + x == x;
      if x != [] {
        var n := if x[0] == '\\' && |x| > 1 then 2 else 1;
        assert x[n..] == [] + x[n..];
        BodyEndOpen([], x[n..]);
      }
    }
  }

  lemma {:induction false} SpaceLengthPrefix(t: string, x: string)
    requires SpaceLength(t) < |t| || x == [] || !IsSpace(x[0])
    ensures SpaceLength(t + x) == SpaceLength(t)
    decreases |t|
  {
    if t == [] {
      assert t + x == x;
    } else {
      assert (t + x)[0] == t[0];
      if IsSpace(t[0]) {
        assert (t + x)[1..] == t[1..] + x;
        SpaceLengthPrefix(t[1..], x);
      }
    }
  }

  /** A url ended by its bracket stays the same whatever is appended. */
  lemma UrlAppend(b: bool, s: string, x: string)
    requires UrlLength(b, s) > 0 && UrlTerminated(s)
    ensures UrlLength(b, s + x) == UrlLength(b, s) && StartsUrl(s + x) && UrlTerminated(s + x)
  {
    hide BodyEnd, SpaceLength;
    var w := 4 + SpaceLength(s[4..]);
    assert (s + x)[4..] == s[4..] + x;
    SpaceLengthPrefix(s[4..], x);
    assert (s + x)[w..] == s[w..] + x;
    BodyEndPrefix(s[w..], x);
  }

  /** A url that ends within the first k characters is already there in those characters. */
  lemma UrlCut(b: bool, s: string, k: nat)
    requires UrlLength(b, s) > 0 && UrlTerminated(s) && UrlLength(b, s) <= k <= |s|
    ensures UrlLength(b, s[..k]) == UrlLength(b, s) && StartsUrl(s[..k]) && UrlTerminated(s[..k])
  {
    hide BodyEnd, SpaceLength;
    var w := 4 + SpaceLength(s[4..]);
    var p := s[..k];
    assert UrlLength(b, s) == w + BodyEnd(s[w..]).value;
    assert s[4..] == p[4..] + s[k..];
    SpaceCut(s[4..], k - 4);
    assert p[4..] == s[4..][..k - 4];
    assert p[w..] == s[w..][..k - w];
    BodyEndCut(s[w..], k - w);
    assert p[w] == s[w];
  }

  lemma {:induction false} SpaceCut(t: string, k: nat)
    requires k <= |t| && SpaceLength(t) < k
    ensures SpaceLength(t[..k]) == SpaceLength(t)
    decreases |t|
  {
    assert t[..k][0] == t[0];
    if IsSpace(t[0]) {
      assert t[..k][1..] == t[1..][..k - 1];
      SpaceCut(t[1..], k - 1);
    }
  }

  /** A url shorter than the text is terminated. */
  lemma ShortUrlTerminated(b: bool, s: string)
    requires 0 < UrlLength(b, s) < |s|
    ensures UrlTerminated(s)
  {
  }

  /** A url is copied whole and is still a url of the same length in the output. */
  lemma UrlCopied(b: bool, s: string, rest: string)
    requires UrlLength(b, s) > 0
    requires UrlLength(b, s) == |s| ==> rest == []
    ensures UrlLength(b, s[..UrlLength(b, s)] + rest) == UrlLength(b, s)
  {
    var n := UrlLength(b, s);
    if n < |s| {
      ShortUrlTerminated(b, s);
      UrlCut(b, s, n);
      UrlAppend(b, s[..n], rest);
    } else {
      assert s[..n] + rest == s;
    }
  }

  // ---------------------------------------------------------------- stripComments

  lemma NothingIsFree(b: bool, q: Option<char>)
    ensures CommentFree(b, q, [])
  {
  }

  lemma CommentFreeFrom(b: bool, q: Option<char>, s: string, t: Chunk)
    requires s != [] && t == Token(b, q, s) && !(q.None? && StartsComment(s))
    requires CommentFree(IdentChar(s[t.length - 1]), t.quote, s[t.length..])
    ensures CommentFree(b, q, s)
  {
    hide Token;
  }

  /** Whatever is stripped comes out comment-free. */
  lemma {:induction false} StripClean(b: bool, q: Option<char>, s: string)
    ensures CommentFree(b, q, Strip(b, q, s))
    decreases |s|
  {
    hide Token, Next, IdentChar, Strip, CommentFree, StartsComment;
    if s == [] {
      StripNothing(b, q);
      NothingIsFree(b, q);
    } else {
      var c := Next(b, q, s);
      var rest := Strip(IdentChar(s[c.length - 1]), c.quote, s[c.length..]);
      StripClean(IdentChar(s[c.length - 1]), c.quote, s[c.length..]);
      StripUnfold(b, q, s);
      var r := c.output + rest;
      ChunkKept(b, q, s, rest);
      assert r[|c.output|..] == rest;
      assert r[|c.output| - 1] == c.output[|c.output| - 1];
      NothingIsFree(IdentChar(r[|c.output| - 1]), c.quote);
      CommentFreeFrom(b, q, r, Token(b, q, r));
    }
  }

  /** The first chunk of the output is the one that was written. */
  ghost predicate FirstKept(b: bool, q: Option<char>, s: string, rest: string)
    requires s != []
  {
    var c := Next(b, q, s);
    var r := c.output + rest;
    && !(q.None? && StartsComment(r))
    && Token(b, q, r).length == |c.output| && Token(b, q, r).quote == c.quote
    && (rest != [] ==> IdentChar(c.output[|c.output| - 1]) == IdentChar(s[c.length - 1]))
  }

  lemma ChunkKept(b: bool, q: Option<char>, s: string, rest: string)
    requires s != []
    requires var c := Next(b, q, s); rest == Strip(IdentChar(s[c.length - 1]), c.quote, s[c.length..])
    ensures FirstKept(b, q, s, rest)
  {
    hide UrlLength, CommentLength, Strip, IdentChar, FirstKept;
    var c := Next(b, q, s);
    if c.length == |s| {
      assert s[c.length..] == [];
      StripNothing(IdentChar(s[c.length - 1]), c.quote);
    }
    if q.Some? {
      QuotedKept(b, q, s, rest);
    } else if StartsComment(s) {
      CommentKept(b, s, rest);
    } else if IsMark(s[0]) {
      MarkKept(b, s, rest);
    } else if UrlLength(b, s) == 0 {
      OrdinaryKept(b, s, rest);
    } else {
      UrlKept(b, s, rest);
    }
  }

  lemma QuotedKept(b: bool, q: Option<char>, s: string, rest: string)
    requires s != [] && q.Some? && (|s| == 1 ==> rest == [])
    ensures FirstKept(b, q, s, rest)
  {
    hide UrlLength;
    assert (Next(b, q, s).output + rest)[0] == s[0];
  }

  lemma CommentKept(b: bool, s: string, rest: string)
    requires StartsComment(s) && (CommentLength(s) == |s| ==> rest == [])
    ensures FirstKept(b, None, s, rest)
  {
    hide CommentLength;
    var r := Next(b, None, s).output + rest;
    assert r[0] == ' ' && UrlLength(b, r) == 0;
  }

  lemma MarkKept(b: bool, s: string, rest: string)
    requires s != [] && IsMark(s[0])
    ensures FirstKept(b, None, s, rest)
  {
    hide UrlLength;
    assert (Next(b, None, s).output + rest)[0] == s[0];
  }

  lemma OrdinaryKept(b: bool, s: string, rest: string)
    requires s != [] && !StartsComment(s) && !IsMark(s[0]) && UrlLength(b, s) == 0
    requires rest == Strip(IdentChar(s[0]), None, s[1..])
    ensures FirstKept(b, None, s, rest)
  {
    hide Strip, UrlLength, IdentChar;
    var r := Next(b, None, s).output + rest;
    StripHead(IdentChar(s[0]), None, s[1..]);
    StripUnfold(b, None, s);
    assert r == Strip(b, None, s);
    NoNewUrl(b, s);
    assert r[0] == s[0];
    if |r| > 1 { assert r[1] == rest[0]; }
  }

  lemma UrlKept(b: bool, s: string, rest: string)
    requires s != [] && !StartsComment(s) && !IsMark(s[0]) && UrlLength(b, s) > 0
    requires UrlLength(b, s) == |s| ==> rest == []
    ensures FirstKept(b, None, s, rest)
  {
    hide UrlLength, IdentChar;
    UrlCopied(b, s, rest);
    assert (Next(b, None, s).output + rest)[0] == s[0];
  }

  /** stripComments is idempotent, and a text is left alone exactly when it holds no comment
      outside strings and unquoted urls. */
  lemma {:induction false} StripIdempotent(css: string)
    ensures StripComments(StripComments(css)) == StripComments(css)
    ensures CommentFree(false, None, StripComments(css))
    ensures StripComments(css) == css <==> CommentFree(false, None, css)
  {
    StripClean(false, None, css);
    StripIdentity(false, None, StripComments(css));
    if CommentFree(false, None, css) { StripIdentity(false, None, css); }
  }
}
