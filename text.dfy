/** The JavaScript string built-ins the handlers depend on: the whitespace class shared by
    regular expressions and `trim`, `trim` itself, `includes`, and character counting. */
module Text {

  /** ECMAScript WhiteSpace and LineTerminator code points: what a regular expression's `\s`
      matches and what String.prototype.trim strips. */
  predicate IsWhitespace(c: char): (r: bool)
    ensures r ==> c <= '\U{FFFF}'
  {
    || c == '\t' || c == '\n' || c == '\U{000B}' || c == '\U{000C}' || c == '\r' || c == ' '
    || c == '\U{00A0}' || c == '\U{1680}' || ('\U{2000}' <= c <= '\U{200A}')
    || c == '\U{2028}' || c == '\U{2029}' || c == '\U{202F}' || c == '\U{205F}'
    || c == '\U{3000}' || c == '\U{FEFF}'
  }

  predicate AllWhitespace(s: string) {
    forall i :: 0 <= i < |s| ==> IsWhitespace(s[i])
  }

  /** Leading whitespace removed: the result is the longest suffix of `s` that does not start
      with whitespace, and everything dropped is whitespace. */
  function TrimStart(s: string): (r: string)
    ensures |r| <= |s| && r == s[|s| - |r|..]
    ensures forall i :: 0 <= i < |s| - |r| ==> IsWhitespace(s[i])
    ensures r != [] ==> !IsWhitespace(r[0])
    decreases |s|
  {
    if s != [] && IsWhitespace(s[0]) then TrimStart(s[1..]) else s
  }

  /** Trailing whitespace removed: the result is a prefix of `s` that does not end with
      whitespace, and everything dropped is whitespace. */
  function TrimEnd(s: string): (r: string)
    ensures |r| <= |s| && r == s[..|r|]
    ensures forall i :: |r| <= i < |s| ==> IsWhitespace(s[i])
    ensures r != [] ==> !IsWhitespace(r[|r| - 1])
    decreases |s|
  {
    if s != [] && IsWhitespace(s[|s| - 1]) then TrimEnd(s[..|s| - 1]) else s
  }

  /** String.prototype.trim: the result is a piece of `s` that neither starts nor ends with
      whitespace, and everything around it is whitespace. */
  function Trim(s: string): (r: string)
    ensures |r| <= |s|
    ensures exists k :: TrimmedAt(s, r, k)
    ensures r != [] ==> !IsWhitespace(r[0]) && !IsWhitespace(r[|r| - 1])
    ensures r == [] <==> AllWhitespace(s)
  {
    var t := TrimStart(s);
    var r := TrimEnd(t);
    TrimPieces(s, t, r);
    r
  }

  /** `r` sits at offset `k` of `s` with only whitespace before and after it. */
  predicate TrimmedAt(s: string, r: string, k: int) {
    && 0 <= k <= |s| - |r| && s[k..k + |r|] == r
    && AllWhitespace(s[..k]) && AllWhitespace(s[k + |r|..])
  }

  lemma TrimPieces(s: string, t: string, r: string)
    requires t == TrimStart(s) && r == TrimEnd(t)
    ensures TrimmedAt(s, r, |s| - |t|)
    ensures r == [] <==> AllWhitespace(s)
  {
    var k := |s| - |t|;
    assert s[k..] == t;
    assert t[..|r|] == r;
    assert s[k..k + |r|] == r;
    assert AllWhitespace(s[..k]) by {
      forall i | 0 <= i < k ensures IsWhitespace(s[..k][i]) {
        assert s[..k][i] == s[i];
      }
    }
    var after := s[k + |r|..];
    assert AllWhitespace(after) by {
      forall i | 0 <= i < |after| ensures IsWhitespace(after[i]) {
        assert after[i] == t[|r| + i];
      }
    }
    if r == [] {
      assert s[..k] == s;
    }
  }

  /** Whitespace appended to any text is exactly what trimming the end removes, together
      with the text's own trailing whitespace. */
  lemma {:induction false} TrimEndAppendWs(t: string, w: string)
    requires AllWhitespace(w)
    ensures TrimEnd(t + w) == TrimEnd(t)
    decreases |w|
  {
    if w != [] {
      var u := w[..|w| - 1];
      assert (t + w)[..|t + w| - 1] == t + u;
      TrimEndAppendWs(t, u);
    } else {
      assert t + w == t;
    }
  }

  /** Whitespace in front of a string that starts with a non-space is exactly what trimming
      the start removes. */
  lemma TrimStartDropsPadding(w: string, t: string)
    requires AllWhitespace(w) && t != [] && !IsWhitespace(t[0])
    ensures TrimStart(w + t) == t
  {
    var s := w + t;
    var r := TrimStart(s);
    assert r == s[|w|..] == t;
  }

  /** Whitespace after a string that ends with a non-space is exactly what trimming the end
      removes. */
  lemma TrimEndDropsPadding(t: string, w: string)
    requires AllWhitespace(w) && t != [] && !IsWhitespace(t[|t| - 1])
    ensures TrimEnd(t + w) == t
  {
    var s := t + w;
    var r := TrimEnd(s);
    assert r == s[..|t|] == t;
  }

  /** Trimming text framed by whitespace on both sides gives back the text. */
  lemma TrimFramed(front: string, t: string, back: string)
    requires AllWhitespace(front) && AllWhitespace(back)
    requires t != [] && !IsWhitespace(t[0]) && !IsWhitespace(t[|t| - 1])
    ensures Trim(front + t + back) == t
  {
    assert front + t + back == front + (t + back);
    assert (t + back)[0] == t[0];
    TrimStartDropsPadding(front, t + back);
    TrimEndDropsPadding(t, back);
  }

  /** String.prototype.includes: `sub` occurs somewhere in `s`. */
  predicate Includes(s: string, sub: string): (r: bool)
    ensures sub == [] ==> r
    ensures r ==> |sub| <= |s|
  {
    assert sub == [] ==> OccursAt(s, sub, 0);
    exists i :: 0 <= i <= |s| - |sub| && OccursAt(s, sub, i)
  }

  predicate OccursAt(s: string, sub: string, i: int)
    requires 0 <= i <= |s| - |sub|
  {
    s[i..i + |sub|] == sub
  }

  /** The number of occurrences of `c` in `s`. */
  function Count(s: string, c: char): nat
    decreases |s|
  {
    if s == [] then 0 else (if s[0] == c then 1 else 0) + Count(s[1..], c)
  }

  lemma {:induction false} CountConcat(a: string, b: string, c: char)
    ensures Count(a + b, c) == Count(a, c) + Count(b, c)
    decreases |a|
  {
    if a == [] {
      assert a + b == b;
    } else {
      assert (a + b)[1..] == a[1..] + b;
      CountConcat(a[1..], b, c);
    }
  }

  lemma CountSingle(x: char, c: char)
    ensures Count([x], c) == if x == c then 1 else 0
  {
  }

  lemma {:induction false} CountAbsent(s: string, c: char)
    requires forall i :: 0 <= i < |s| ==> s[i] != c
    ensures Count(s, c) == 0
    decreases |s|
  {
    if s != [] {
      CountAbsent(s[1..], c);
    }
  }
}
