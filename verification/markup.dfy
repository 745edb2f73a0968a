/** The one attribute of a week's markup that holds escaped data: the href of
    an entry's repository link, written inside double quotes. */
module Markup {
  import opened Wrappers
  import opened Escape

  const HrefOpen: string := "href=\""

  /** The value an HTML parser reads for a double-quoted attribute whose
      value starts at the front of `s`: every character up to the next `"`. */
  function QuotedValue(s: string): (r: string)
    ensures |r| <= |s|
    ensures forall i :: 0 <= i < |r| ==> r[i] != '"'
    decreases |s|
  {
    if |s| == 0 || s[0] == '"' then [] else [s[0]] + QuotedValue(s[1..])
  }

  /** The link target the parser reads from an attribute written `href="..."`. */
  function ParsedHref(attr: string): string {
    if StartsWith(attr, HrefOpen) then Unescape(QuotedValue(attr[|HrefOpen|..])) else []
  }

  /** The href attribute as the source writes it: the url through escapeHtml. */
  function HrefAsWritten(url: Option<string>): (r: string)
    ensures StartsWith(r, HrefOpen) && r[|r| - 1] == '"'
    ensures forall i :: |HrefOpen| <= i < |r| - 1 ==> r[i] != '<' && r[i] != '>'
  {
    var r := HrefOpen + EscapeHtml(url) + "\"";
    assert r[..|HrefOpen|] == HrefOpen;
    r
  }

  /** The href attribute with the url escaped for a double-quoted value. */
  function Href(url: Option<string>): (r: string)
    ensures StartsWith(r, HrefOpen) && r[|r| - 1] == '"'
    ensures forall i :: |HrefOpen| <= i < |r| - 1 ==> r[i] != '"' && r[i] != '<' && r[i] != '>'
  {
    var r := HrefOpen + EscapeAttribute(url.GetOr([])) + "\"";
    assert r[..|HrefOpen|] == HrefOpen;
    r
  }

  /** A value with no `"` is read in full up to the closing quote. */
  lemma {:induction false} QuotedValueClosed(e: string, rest: string)
    requires forall i :: 0 <= i < |e| ==> e[i] != '"'
    ensures QuotedValue(e + "\"" + rest) == e
    decreases |e|
  {
    var s := e + "\"" + rest;
    if |e| == 0 {
      assert s[0] == '"';
    } else {
      assert s[0] == e[0];
      assert s[1..] == e[1..] + "\"" + rest;
      QuotedValueClosed(e[1..], rest);
      assert [e[0]] + e[1..] == e;
    }
  }

  /** A quote-free value written as `href="e"` is read back as the decoding of `e`. */
  lemma ReadsBack(e: string)
    requires forall i :: 0 <= i < |e| ==> e[i] != '"'
    ensures ParsedHref(HrefOpen + e + "\"") == Unescape(e)
  {
    assert HrefOpen + e + "\"" + [] == HrefOpen + e + "\"";
    SplitAttributeRest(e, []);
    QuotedValueClosed(e, []);
  }

  /** The source's attribute is read back intact whenever the url holds no
      double quote. */
  lemma HrefAsWrittenWithoutQuotes(url: string)
    requires forall i :: 0 <= i < |url| ==> url[i] != '"'
    ensures ParsedHref(HrefAsWritten(Some(url))) == url
  {
    var e := EscapeHtml(Some(url));
    NoQuoteEscapes(url);
    ReadsBack(e);
    UnescapeEscapeText(url);
  }

  /** Text escaping introduces no `"` of its own. */
  lemma {:induction false} NoQuoteEscapes(t: string)
    requires forall i :: 0 <= i < |t| ==> t[i] != '"'
    ensures forall i :: 0 <= i < |EscapeText(t)| ==> EscapeText(t)[i] != '"'
    decreases |t|
  {
    if |t| > 0 {
      NoQuoteEscapes(t[1..]);
      var a, b := EscapeChar(t[0]), EscapeText(t[1..]);
      assert forall i :: 0 <= i < |a| ==> a[i] != '"';
      assert EscapeText(t) == a + b;
    }
  }

  /** As written, a `"` in the url ends the attribute early: for a url
      `a"b` (say `x" onclick="y`) the parser reads the link target `a` only,
      and `b` becomes markup of its own. */
  lemma HrefAsWrittenBreaksOut(a: string, b: string)
    requires forall i :: 0 <= i < |a| ==> a[i] != '"'
    ensures ParsedHref(HrefAsWritten(Some(a + "\"" + b))) == a
    ensures a != a + "\"" + b
  {
    assert a + "\"" + b == a + ("\"" + b);
    EscapeTextAppend(a, "\"" + b);
    EscapeTextAppend("\"", b);
    assert EscapeText("\"") == "\"";
    var ea, eb := EscapeText(a), EscapeText(b);
    NoQuoteEscapes(a);
    assert HrefOpen + EscapeText(a + "\"" + b) + "\"" == HrefOpen + ea + "\"" + (eb + "\"");
    SplitAttributeRest(ea, eb + "\"");
    QuotedValueClosed(ea, eb + "\"");
    UnescapeEscapeText(a);
  }

  /** An attribute `href="e"` followed by `rest` starts with its opening and
      continues with `e"` and the rest. */
  lemma SplitAttributeRest(e: string, rest: string)
    ensures StartsWith(HrefOpen + e + "\"" + rest, HrefOpen)
    ensures (HrefOpen + e + "\"" + rest)[|HrefOpen|..] == e + "\"" + rest
  {
  }

  /** With attribute escaping, the parser reads back exactly the url, for
      every url, quotes included; an absent url gives an empty target. */
  lemma HrefRoundTrip(url: Option<string>)
    ensures ParsedHref(Href(url)) == url.GetOr([])
  {
    var e := EscapeAttribute(url.GetOr([]));
    ReadsBack(e);
    UnescapeEscapeAttribute(url.GetOr([]));
  }
}
