/** Characters and trimming as JavaScript defines them, shared by the two string machines
    of the design runtime. A string is a sequence of characters. */
module JsText {

  /** What String.prototype.trim and the regular-expression class \s both call white space. */
  predicate IsSpace(c: char) {
    || '\U{9}' <= c <= '\U{D}'
    || c == ' '
    || c == '\U{A0}'
    || c == '\U{1680}'
    || '\U{2000}' <= c <= '\U{200A}'
    || c == '\U{2028}' || c == '\U{2029}' || c == '\U{202F}' || c == '\U{205F}'
    || c == '\U{3000}' || c == '\U{FEFF}'
  }

  predicate AllSpace(s: string) {
    forall k :: 0 <= k < |s| ==> IsSpace(s[k])
  }

  /** Starts and ends with something other than white space. */
  predicate Tight(s: string) {
    s != [] && !IsSpace(s[0]) && !IsSpace(s[|s| - 1])
  }

  function TrimLeft(s: string): (r: string)
    ensures |r| <= |s|
  {
    if s != [] && IsSpace(s[0]) then TrimLeft(s[1..]) else s
  }

  function TrimRight(s: string): (r: string)
    ensures |r| <= |s|
  {
    if s != [] && IsSpace(s[|s| - 1]) then TrimRight(s[..|s| - 1]) else s
  }

  function Trim(s: string): (r: string)
    ensures |r| <= |s|
  {
    TrimRight(TrimLeft(s))
  }

  /** TrimLeft removes a leading run of white space and nothing else. */
  lemma {:induction false} TrimLeftSplit(s: string) returns (pad: string)
    ensures AllSpace(pad) && s == pad + TrimLeft(s)
    ensures TrimLeft(s) == [] || !IsSpace(TrimLeft(s)[0])
  {
    if s != [] && IsSpace(s[0]) {
      var rest := TrimLeftSplit(s[1..]);
      pad := [s[0]] + rest;
    } else {
      pad := [];
    }
  }

  /** TrimRight removes a trailing run of white space and nothing else. */
  lemma {:induction false} TrimRightSplit(s: string) returns (pad: string)
    ensures AllSpace(pad) && s == TrimRight(s) + pad
    ensures TrimRight(s) == [] || !IsSpace(TrimRight(s)[|TrimRight(s)| - 1])
  {
    if s != [] && IsSpace(s[|s| - 1]) {
      var rest := TrimRightSplit(s[..|s| - 1]);
      pad := rest + [s[|s| - 1]];
    } else {
      pad := [];
    }
  }

  /** Padding a tight text with white space is undone by trimming. */
  lemma {:induction false} TrimPadded(a: string, s: string, b: string)
    requires AllSpace(a) && AllSpace(b) && Tight(s)
    ensures Trim(a + s + b) == s
    decreases |a| + |b|
  {
    if a != [] {
      assert (a + s + b)[0] == a[0];
      assert (a + s + b)[1..] == a[1..] + s + b;
      TrimPadded(a[1..], s, b);
      assert TrimLeft(a + s + b) == TrimLeft(a[1..] + s + b);
    } else if b != [] {
      assert a + s + b == s + b;
      assert TrimLeft(s + b) == s + b;
      var n := |b| - 1;
      assert (s + b)[..|s + b| - 1] == s + b[..n];
      TrimPadded([], s, b[..n]);
      assert [] + s + b[..n] == s + b[..n];
      assert TrimLeft(s + b[..n]) == s + b[..n];
    } else {
      assert a + s + b == s;
    }
  }

  /** toLowerCase on ASCII letters. */
  function LowerChar(c: char): char {
    if 'A' <= c <= 'Z' then (c as int - 'A' as int + 'a' as int) as char else c
  }

  function LowerText(s: string): (r: string)
    ensures |r| == |s|
  {
    if s == [] then [] else [LowerChar(s[0])] + LowerText(s[1..])
  }

  /** A text without capitals is its own lower case. */
  lemma {:induction false} LowerIsItself(s: string)
    requires forall k :: 0 <= k < |s| ==> !('A' <= s[k] <= 'Z')
    ensures LowerText(s) == s
  {
    if s != [] {
      LowerIsItself(s[1..]);
      assert s == [s[0]] + s[1..];
    }
  }
}
