/** Attribute names survive the HTML parser
    (apps/MasterQala/design_handoff_masterqala/support.js:365-371, 388-390, 422-423).

    An HTML parser lower-cases attribute names, so the runtime writes a camel-case name in
    kebab case first and reads it back afterwards. */
module CamelAttributes {
  import opened JsText

  predicate IsUpper(c: char) { 'A' <= c <= 'Z' }
  predicate IsLower(c: char) { 'a' <= c <= 'z' }

  function UpperChar(c: char): char {
    if IsLower(c) then (c as int - 'a' as int + 'A' as int) as char else c
  }

  /** The replacement inside encodeCamelAttrs: a capital becomes a dash and its small letter. */
  function EncodeName(name: string): string {
    if name == [] then []
    else (if IsUpper(name[0]) then ['-', LowerChar(name[0])] else [name[0]]) + EncodeName(name[1..])
  }

  /** kebabToCamel: a dash and a small letter become the capital. */
  function KebabToCamel(s: string): string {
    if s == [] then []
    else if s[0] == '-' && |s| > 1 && IsLower(s[1]) then [UpperChar(s[1])] + KebabToCamel(s[2..])
    else [s[0]] + KebabToCamel(s[1..])
  }

  const PREFIX: string := "sc-camel-"

  /** What the runtime recovers from the attribute name the parser hands back. */
  function Recover(attribute: string): string
    requires |attribute| >= |PREFIX|
  {
    KebabToCamel(attribute[|PREFIX|..])
  }

  lemma {:induction false} EncodeRoundTrip(name: string)
    requires '-' !in name
    ensures KebabToCamel(EncodeName(name)) == name
    ensures LowerText(EncodeName(name)) == EncodeName(name)
  {
    if name != [] {
      EncodeRoundTrip(name[1..]);
      var rest, e := EncodeName(name[1..]), EncodeName(name);
      if IsUpper(name[0]) {
        assert e[1..] == [LowerChar(name[0])] + rest && e[2..] == rest && e[1..][1..] == rest;
      } else {
        assert e[1..] == rest;
      }
    }
  }

  /** A camel-case name is recovered after lower-casing, and different names stay different. */
  lemma AttributeSurvivesLowering(name: string)
    requires '-' !in name
    ensures Recover(LowerText(PREFIX + EncodeName(name))) == name
  {
    hide KebabToCamel, EncodeName, LowerText;
    EncodeRoundTrip(name);
    LowerTextConcat(PREFIX, EncodeName(name));
    PrefixIsLower();
    assert (PREFIX + EncodeName(name))[|PREFIX|..] == EncodeName(name);
  }

  lemma PrefixIsLower()
    ensures LowerText(PREFIX) == PREFIX
  {
    hide LowerText;
    LowerIsItself(PREFIX);
  }

  lemma {:induction false} LowerTextConcat(a: string, b: string)
    ensures LowerText(a + b) == LowerText(a) + LowerText(b)
  {
    if a == [] {
      assert a + b == b;
    } else {
      assert (a + b)[1..] == a[1..] + b;
      LowerTextConcat(a[1..], b);
    }
  }
}
