/** escapeHtml of src/pages/api/support.ts: every `&`, `<`, `>`, `"` and `'` of the text is
    replaced by its entity, everything else is copied. */
module HtmlEscape {

  /** The five characters the escaper replaces. */
  predicate IsSpecial(c: char) {
    c == '&' || c == '<' || c == '>' || c == '"' || c == '\''
  }

  /** The characters that can open or close markup or an attribute value (the specials
      other than the ampersand, which the output keeps as the start of an entity). */
  predicate IsMarkupChar(c: char) {
    c == '<' || c == '>' || c == '"' || c == '\''
  }

  /** The entity table. */
  function Entity(c: char): (e: string)
    requires IsSpecial(c)
    ensures |e| >= 4 && e[0] == '&' && e[|e| - 1] == ';'
  {
    match c
    case '&' => "&amp;"
    case '<' => "&lt;"
    case '>' => "&gt;"
    case '"' => "&quot;"
    case _ => "&#39;"
  }

  /** The replacement of one character: an ordinary character stands for itself, a special
      one becomes an entity, and no markup character is produced either way. */
  function EscapeChar(c: char): (r: string)
    ensures !IsSpecial(c) ==> r == [c]
    ensures IsSpecial(c) ==> |r| >= 4 && r[0] == '&' && r[|r| - 1] == ';'
    ensures forall i :: 0 <= i < |r| ==> !IsMarkupChar(r[i])
  {
    if IsSpecial(c) then Entity(c) else [c]
  }

  /** escapeHtml: no markup character survives, and the text only grows. */
  function EscapeHtml(s: string): (r: string)
    ensures |r| >= |s|
    ensures forall i :: 0 <= i < |r| ==> !IsMarkupChar(r[i])
    decreases |s|
  {
    if s == [] then [] else EscapeChar(s[0]) + EscapeHtml(s[1..])
  }

  predicate HasPrefix(s: string, p: string) {
    |p| <= |s| && s[..|p|] == p
  }

  /** The text at position `i` of `r` is one of the five entities. */
  predicate BeginsEntity(r: string, i: nat)
    requires i <= |r|
  {
    var t := r[i..];
    HasPrefix(t, "&amp;") || HasPrefix(t, "&lt;") || HasPrefix(t, "&gt;")
    || HasPrefix(t, "&quot;") || HasPrefix(t, "&#39;")
  }

  /** The inverse of the entity table: each entity back to its character, any other text
      copied. Text without an ampersand is copied unchanged, and the text never grows. */
  function UnescapeHtml(t: string): (r: string)
    ensures |r| <= |t|
    ensures (forall i :: 0 <= i < |t| ==> t[i] != '&') ==> r == t
    decreases |t|
  {
    if t == [] then []
    else if t[0] != '&' then [t[0]] + UnescapeHtml(t[1..])
    else if HasPrefix(t, "&amp;") then "&" + UnescapeHtml(t[5..])
    else if HasPrefix(t, "&lt;") then "<" + UnescapeHtml(t[4..])
    else if HasPrefix(t, "&gt;") then ">" + UnescapeHtml(t[4..])
    else if HasPrefix(t, "&quot;") then "\"" + UnescapeHtml(t[6..])
    else if HasPrefix(t, "&#39;") then "'" + UnescapeHtml(t[5..])
    else [t[0]] + UnescapeHtml(t[1..])
  }

  /** Escaping distributes over concatenation: the replacement is character by character. */
  lemma {:induction false} EscapeConcat(a: string, b: string)
    ensures EscapeHtml(a + b) == EscapeHtml(a) + EscapeHtml(b)
    decreases |a|
  {
    if a == [] {
      assert a + b == b;
    } else {
      assert (a + b)[0] == a[0];
      assert (a + b)[1..] == a[1..] + b;
      EscapeConcat(a[1..], b);
    }
  }

  /** Text without the five specials is copied unchanged. */
  lemma {:induction false} EscapeIdentity(s: string)
    requires forall i :: 0 <= i < |s| ==> !IsSpecial(s[i])
    ensures EscapeHtml(s) == s
    decreases |s|
  {
    if s != [] {
      EscapeIdentity(s[1..]);
    }
  }

  /** Every ampersand of the output begins one of the five entities. */
  lemma {:induction false} AmpersandBeginsEntity(s: string, i: nat)
    requires i < |EscapeHtml(s)| && EscapeHtml(s)[i] == '&'
    ensures BeginsEntity(EscapeHtml(s), i)
    decreases |s|
  {
    var r := EscapeHtml(s);
    var e, rest := EscapeChar(s[0]), EscapeHtml(s[1..]);
    assert r == e + rest;
    if i < |e| {
      assert r[i..] == e + rest;
    } else {
      assert r[i] == rest[i - |e|];
      AmpersandBeginsEntity(s[1..], i - |e|);
      assert r[i..] == rest[i - |e|..];
    }
  }

  /** Unescaping one entity, or one ordinary character, in front of escaped text. */
  lemma UnescapeStep(c: char, rest: string)
    ensures UnescapeHtml(EscapeChar(c) + rest) == [c] + UnescapeHtml(rest)
  {
    var t := EscapeChar(c) + rest;
    if c == '&' {
      assert t[..5] == "&amp;" && t[5..] == rest;
    } else if c == '<' {
      UnescapeLaterEntity(t, "&lt;", rest);
    } else if c == '>' {
      UnescapeLaterEntity(t, "&gt;", rest);
    } else if c == '"' {
      UnescapeLaterEntity(t, "&quot;", rest);
    } else if c == '\'' {
      UnescapeLaterEntity(t, "&#39;", rest);
    } else {
      UnescapeOrdinary(t, c, rest);
    }
  }

  /** Each entity after the first in the table is read as itself and as no entity before it. */
  lemma UnescapeLaterEntity(t: string, e: string, rest: string)
    requires e == "&lt;" || e == "&gt;" || e == "&quot;" || e == "&#39;"
    requires t == e + rest
    ensures t[..|e|] == e && t[|e|..] == rest
    ensures !HasPrefix(t, "&amp;")
    ensures e != "&lt;" ==> !HasPrefix(t, "&lt;")
    ensures e != "&gt;" ==> !HasPrefix(t, "&gt;")
    ensures e != "&quot;" ==> !HasPrefix(t, "&quot;")
  {
    assert t[1] == e[1];
  }

  /** An ordinary character is not the start of any entity. */
  lemma UnescapeOrdinary(t: string, c: char, rest: string)
    requires !IsSpecial(c) && t == [c] + rest
    ensures UnescapeHtml(t) == [c] + UnescapeHtml(rest)
  {
  }

  /** Unescaping recovers the original text: the entity table is injective and no entity
      is confused with ordinary text. */
  lemma {:induction false} UnescapeEscape(s: string)
    ensures UnescapeHtml(EscapeHtml(s)) == s
    decreases |s|
  {
    if s != [] {
      UnescapeStep(s[0], EscapeHtml(s[1..]));
      UnescapeEscape(s[1..]);
      assert s == [s[0]] + s[1..];
    }
  }
}
