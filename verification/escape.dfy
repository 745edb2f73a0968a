/** escapeHtml (script.js): assigning a string to a fresh element's
    `textContent` and reading `innerHTML` back serializes one text node,
    which the HTML Living Standard (section 13.3, "Serializing HTML
    fragments", escaping a string outside attribute mode) writes with `&`,
    U+00A0, `<` and `>` replaced by character references. Quotes are left
    as they are. */
module Escape {
  import opened Wrappers

  const NoBreakSpace: char := '\U{00A0}'

  /** The references the escapers emit. */
  const AmpRef: string := "&amp;"
  const NbspRef: string := "&nbsp;"
  const LtRef: string := "&lt;"
  const GtRef: string := "&gt;"
  const QuotRef: string := "&quot;"

  predicate StartsWith(s: string, prefix: string) {
    |prefix| <= |s| && s[..|prefix|] == prefix
  }

  /** The text-node serialization of one character. */
  function EscapeChar(c: char): string {
    if c == '&' then AmpRef
    else if c == NoBreakSpace then NbspRef
    else if c == '<' then LtRef
    else if c == '>' then GtRef
    else [c]
  }

  /** The serialization of a text node holding `t`: no raw `<`, `>` or
      U+00A0 is left, and nothing gets shorter. */
  function EscapeText(t: string): (r: string)
    ensures forall i :: 0 <= i < |r| ==> r[i] != '<' && r[i] != '>' && r[i] != NoBreakSpace
    ensures |r| >= |t|
    decreases |t|
  {
    if |t| == 0 then [] else EscapeChar(t[0]) + EscapeText(t[1..])
  }

  /** Text escaping works character by character, so it distributes over
      concatenation. */
  lemma {:induction false} EscapeTextAppend(x: string, y: string)
    ensures EscapeText(x + y) == EscapeText(x) + EscapeText(y)
    decreases |x|
  {
    if |x| > 0 {
      assert (x + y)[0] == x[0];
      assert (x + y)[1..] == x[1..] + y;
      EscapeTextAppend(x[1..], y);
    } else {
      assert x + y == y;
    }
  }

  /** escapeHtml: an absent field (undefined in JavaScript) sets no text
      node, so it serializes to the empty string. */
  function EscapeHtml(text: Option<string>): (r: string)
    ensures text == None ==> r == []
    ensures text.Some? ==> forall i :: 0 <= i < |r| ==> r[i] != '<' && r[i] != '>'
  {
    EscapeText(text.GetOr([]))
  }

  /** The serialization of one character inside a double-quoted attribute
      value: as in text, and `"` as well. */
  function EscapeAttributeChar(c: char): string {
    if c == '"' then QuotRef else EscapeChar(c)
  }

  /** A string escaped for use inside a double-quoted attribute value: no raw
      `"`, `<` or `>` is left. */
  function EscapeAttribute(t: string): (r: string)
    ensures forall i :: 0 <= i < |r| ==> r[i] != '"' && r[i] != '<' && r[i] != '>'
    decreases |t|
  {
    if |t| == 0 then [] else EscapeAttributeChar(t[0]) + EscapeAttribute(t[1..])
  }

  /** Decodes the five character references the escapers emit and keeps
      every other character as it is. */
  function Unescape(s: string): string
    decreases |s|
  {
    if |s| == 0 then []
    else if StartsWith(s, AmpRef) then "&" + Unescape(s[|AmpRef|..])
    else if StartsWith(s, NbspRef) then [NoBreakSpace] + Unescape(s[|NbspRef|..])
    else if StartsWith(s, LtRef) then "<" + Unescape(s[|LtRef|..])
    else if StartsWith(s, GtRef) then ">" + Unescape(s[|GtRef|..])
    else if StartsWith(s, QuotRef) then "\"" + Unescape(s[|QuotRef|..])
    else [s[0]] + Unescape(s[1..])
  }

  /** An ampersand at `i` opens one of the references text escaping emits. */
  predicate OpensReference(r: string, i: nat)
    requires i < |r|
  {
    StartsWith(r[i..], AmpRef) || StartsWith(r[i..], NbspRef)
    || StartsWith(r[i..], LtRef) || StartsWith(r[i..], GtRef)
  }

  /** Every `&` in `r` opens a reference. */
  predicate AmpersandsOpenReferences(r: string) {
    forall i :: 0 <= i < |r| && r[i] == '&' ==> OpensReference(r, i)
  }

  /** The property survives concatenation. */
  lemma ConcatOpensReferences(a: string, b: string)
    requires AmpersandsOpenReferences(a) && AmpersandsOpenReferences(b)
    ensures AmpersandsOpenReferences(a + b)
  {
  }

  /** It holds of every single escaped character. */
  lemma CharOpensReferences(c: char)
    ensures AmpersandsOpenReferences(EscapeChar(c))
  {
  }

  /** Every `&` in escaped text begins `&amp;`, `&nbsp;`, `&lt;` or `&gt;`. */
  lemma {:induction false} EscapedAmpersands(t: string)
    ensures AmpersandsOpenReferences(EscapeText(t))
    decreases |t|
  {
    if |t| > 0 {
      CharOpensReferences(t[0]);
      EscapedAmpersands(t[1..]);
      ConcatOpensReferences(EscapeChar(t[0]), EscapeText(t[1..]));
    }
  }

  /** A string that differs from `prefix` at `k` does not start with it. */
  lemma DiffersAt(s: string, prefix: string, k: nat)
    requires k < |s| && k < |prefix| && s[k] != prefix[k]
    ensures !StartsWith(s, prefix)
  {
  }

  /** Decoding one escaped character in front of any rest yields that
      character in front of the decoded rest. */
  lemma UnescapeHead(e: string, c: char, rest: string)
    requires e == EscapeChar(c) || e == EscapeAttributeChar(c)
    ensures Unescape(e + rest) == [c] + Unescape(rest)
  {
    var s := e + rest;
    assert s[..|e|] == e;
    assert s[|e|..] == rest;
    if e == [c] {
      assert c != '&';
      assert s[0] == c;
      DiffersAt(s, AmpRef, 0);
      DiffersAt(s, NbspRef, 0);
      DiffersAt(s, LtRef, 0);
      DiffersAt(s, GtRef, 0);
      DiffersAt(s, QuotRef, 0);
      assert s[1..] == rest;
    } else if e == NbspRef {
      assert s[1] == e[1];
      DiffersAt(s, AmpRef, 1);
    } else if e == LtRef {
      assert s[1] == e[1];
      DiffersAt(s, AmpRef, 1);
      DiffersAt(s, NbspRef, 1);
    } else if e == GtRef {
      assert s[1] == e[1];
      DiffersAt(s, AmpRef, 1);
      DiffersAt(s, NbspRef, 1);
      DiffersAt(s, LtRef, 1);
    } else if e == QuotRef {
      assert s[1] == e[1];
      DiffersAt(s, AmpRef, 1);
      DiffersAt(s, NbspRef, 1);
      DiffersAt(s, LtRef, 1);
      DiffersAt(s, GtRef, 1);
    }
  }

  /** Decoding the escaped text gives back the original text. */
  lemma {:induction false} UnescapeEscapeText(t: string)
    ensures Unescape(EscapeText(t)) == t
    decreases |t|
  {
    if |t| > 0 {
      UnescapeHead(EscapeChar(t[0]), t[0], EscapeText(t[1..]));
      UnescapeEscapeText(t[1..]);
      assert [t[0]] + t[1..] == t;
    }
  }

  /** Decoding an escaped attribute value gives back the original string. */
  lemma {:induction false} UnescapeEscapeAttribute(t: string)
    ensures Unescape(EscapeAttribute(t)) == t
    decreases |t|
  {
    if |t| > 0 {
      UnescapeHead(EscapeAttributeChar(t[0]), t[0], EscapeAttribute(t[1..]));
      UnescapeEscapeAttribute(t[1..]);
      assert [t[0]] + t[1..] == t;
    }
  }

  /** Text holding no `&`, `<`, `>` or U+00A0 is serialized unchanged; in
      particular double and single quotes pass through as they are. */
  lemma {:induction false} PlainTextUnchanged(t: string)
    requires forall i :: 0 <= i < |t| ==> t[i] != '&' && t[i] != '<' && t[i] != '>' && t[i] != NoBreakSpace
    ensures EscapeText(t) == t
    decreases |t|
  {
    if |t| > 0 {
      PlainTextUnchanged(t[1..]);
      assert [t[0]] + t[1..] == t;
    }
  }
}
