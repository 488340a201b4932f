/**
  `escapeHtml`: the five characters that are special in HTML text and
  attribute values become character entity references, every other
  character is copied. The list view runs titles and categories through it
  before writing them with `innerHTML`.
 */
module HtmlEscape {

  /** The characters `escapeHtml` rewrites. */
  predicate IsSpecial(c: char)
  {
    c == '&' || c == '<' || c == '>' || c == '"' || c == '\''
  }

  /** The replacement for one character. */
  function Entity(c: char): (r: string)
    ensures IsSpecial(c) ==> |r| > 1 && r[0] == '&'
    ensures !IsSpecial(c) ==> r == [c]
  {
    match c
    case '&' => "&amp;"
    case '<' => "&lt;"
    case '>' => "&gt;"
    case '"' => "&quot;"
    case '\'' => "&#39;"
    case _ => [c]
  }

  /** A markup character that must not appear raw in escaped text. */
  predicate IsMarkup(c: char)
  {
    c == '<' || c == '>' || c == '"' || c == '\''
  }

  /** `s.replace(/[&<>"']/g, c => entity[c])`: every character replaced by
      its entity, left to right. The result holds no raw `<`, `>`, `"` or
      `'`, and is never shorter than the input. */
  function EscapeHtml(s: string): (r: string)
    ensures forall i :: 0 <= i < |r| ==> !IsMarkup(r[i])
    ensures |r| >= |s|
  {
    if s == [] then [] else Entity(s[0]) + EscapeHtml(s[1..])
  }

  /** Escaping works character by character: it distributes over
      concatenation. */
  lemma {:induction false} EscapeHtmlAppend(a: string, b: string)
    ensures EscapeHtml(a + b) == EscapeHtml(a) + EscapeHtml(b)
  {
    if a != [] {
      assert (a + b)[0] == a[0];
      assert (a + b)[1..] == a[1..] + b;
      EscapeHtmlAppend(a[1..], b);
    } else {
      assert a + b == b;
    }
  }

  /** A string holding none of the five characters comes back unchanged, and
      only such a string does: one special character makes the output
      strictly longer. */
  lemma {:induction false} EscapeHtmlUnchangedIff(s: string)
    ensures EscapeHtml(s) == s <==> forall i :: 0 <= i < |s| ==> !IsSpecial(s[i])
  {
    if forall i :: 0 <= i < |s| ==> !IsSpecial(s[i]) {
      EscapeHtmlPlain(s);
    } else {
      var k :| 0 <= k < |s| && IsSpecial(s[k]);
      EscapeHtmlGrows(s, k);
    }
  }

  lemma {:induction false} EscapeHtmlPlain(s: string)
    requires forall i :: 0 <= i < |s| ==> !IsSpecial(s[i])
    ensures EscapeHtml(s) == s
  {
    if s != [] {
      EscapeHtmlPlain(s[1..]);
      assert s == [s[0]] + s[1..];
    }
  }

  lemma {:induction false} EscapeHtmlGrows(s: string, k: nat)
    requires k < |s| && IsSpecial(s[k])
    ensures |EscapeHtml(s)| > |s|
  {
    if k > 0 {
      EscapeHtmlGrows(s[1..], k - 1);
    }
  }

  /** Decodes the five entity references `escapeHtml` produces (a browser's
      reading of escaped text, restricted to these five); any other
      character stands for itself. */
  function Unescape(s: string): string
    decreases |s|
  {
    if s == [] then []
    else if "&amp;" <= s then "&" + Unescape(s[5..])
    else if "&lt;" <= s then "<" + Unescape(s[4..])
    else if "&gt;" <= s then ">" + Unescape(s[4..])
    else if "&quot;" <= s then "\"" + Unescape(s[6..])
    else if "&#39;" <= s then "'" + Unescape(s[5..])
    else [s[0]] + Unescape(s[1..])
  }

  /** Decoding one character's replacement followed by any text gives back
      the character followed by that text's decoding. */
  lemma UnescapeEntity(c: char, rest: string)
    ensures Unescape(Entity(c) + rest) == [c] + Unescape(rest)
  {
    var e := Entity(c) + rest;
    if c == '&' {
      assert "&amp;" <= e && e[5..] == rest;
    } else if c == '<' {
      assert e[1] == 'l' && e[..4] == "&lt;" && e[4..] == rest;
    } else if c == '>' {
      assert e[1] == 'g' && e[..4] == "&gt;" && e[4..] == rest;
    } else if c == '"' {
      assert e[1] == 'q' && e[..6] == "&quot;" && e[6..] == rest;
    } else if c == '\'' {
      assert e[1] == '#' && e[..5] == "&#39;" && e[5..] == rest;
    } else {
      assert e[0] == c && e[1..] == rest;
    }
  }

  /** Escaping loses nothing: decoding the escaped text gives the original
      string back, so no two strings escape to the same text. */
  lemma {:induction false} EscapeHtmlRoundTrip(s: string)
    ensures Unescape(EscapeHtml(s)) == s
  {
    if s != [] {
      UnescapeEntity(s[0], EscapeHtml(s[1..]));
      EscapeHtmlRoundTrip(s[1..]);
      assert s == [s[0]] + s[1..];
    }
  }
}
