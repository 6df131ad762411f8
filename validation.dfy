/** The email-shape check `^[^\s@]+@[^\s@]+\.[^\s@]+$` of src/utils/validation.ts, written
    out as a predicate over the string instead of a regular expression. */
module Validation {
  import opened Text

  /** A character of the class `[^\s@]`: neither whitespace nor an at sign. */
  predicate IsAtomChar(c: char) {
    !IsWhitespace(c) && c != '@'
  }

  /** Every character of `s` is in `[^\s@]` (the empty string included). */
  predicate IsAtom(s: string) {
    forall i :: 0 <= i < |s| ==> IsAtomChar(s[i])
  }

  /** The part after the at sign, `[^\s@]+\.[^\s@]+`: atom characters only, with a dot that
      is neither the first nor the last character. */
  predicate IsDomain(d: string) {
    IsAtom(d) && exists j :: 0 < j < |d| - 1 && d[j] == '.'
  }

  /** isValidEmail: an at sign that is not the first character, atom characters before it,
      and a domain after it. The shortest accepted address, `a@b.c`, has five characters. */
  predicate IsValidEmail(s: string): (r: bool)
    ensures r ==> |s| >= 5
  {
    exists i :: 0 < i < |s| && s[i] == '@' && IsAtom(s[..i]) && IsDomain(s[i + 1..])
  }

  /** The pattern read as a grammar: `L@A.B` with three non-empty parts drawn from `[^\s@]`.
      (A and B may themselves contain dots: a regular expression matches by trying every
      split.) */
  ghost predicate MatchesEmailPattern(s: string) {
    exists l: string, a: string, b: string :: IsPatternSplit(s, l, a, b)
  }

  /** `s` is `l@a.b` with three non-empty parts drawn from `[^\s@]`. */
  ghost predicate IsPatternSplit(s: string, l: string, a: string, b: string) {
    && s == l + "@" + a + "." + b
    && l != [] && a != [] && b != []
    && IsAtom(l) && IsAtom(a) && IsAtom(b)
  }

  /** Every string the predicate accepts has the shape of the pattern. */
  lemma ValidMatchesPattern(s: string)
    requires IsValidEmail(s)
    ensures MatchesEmailPattern(s)
  {
    var i :| 0 < i < |s| && s[i] == '@' && IsAtom(s[..i]) && IsDomain(s[i + 1..]);
    var d := s[i + 1..];
    var j :| 0 < j < |d| - 1 && d[j] == '.';
    SplitAtDot(s, i, j);
    assert IsPatternSplit(s, s[..i], d[..j], d[j + 1..]);
  }

  /** The split the predicate's witnesses name: at sign at `i`, dot `j` places after it. */
  lemma SplitAtDot(s: string, i: nat, j: nat)
    requires 0 < i < |s| && s[i] == '@' && IsAtom(s[..i]) && IsAtom(s[i + 1..])
    requires 0 < j < |s[i + 1..]| - 1 && s[i + 1..][j] == '.'
    ensures IsPatternSplit(s, s[..i], s[i + 1..][..j], s[i + 1..][j + 1..])
  {
    var l, d := s[..i], s[i + 1..];
    var a, b := d[..j], d[j + 1..];
    AtomSlice(d, 0, j);
    AtomSlice(d, j + 1, |d|);
    assert d == a + "." + b by { assert d == d[..j] + [d[j]] + d[j + 1..]; }
    assert s == l + "@" + d by { assert s == s[..i] + [s[i]] + s[i + 1..]; }
    SplitAssoc(s, l, a, b, d);
  }

  lemma SplitAssoc(s: string, l: string, a: string, b: string, d: string)
    requires d == a + "." + b && s == l + "@" + d
    ensures s == l + "@" + a + "." + b
  {
  }

  lemma AtomSlice(d: string, lo: nat, hi: nat)
    requires IsAtom(d) && lo <= hi <= |d|
    ensures IsAtom(d[lo..hi])
  {
  }

  /** Every string of the pattern's shape is accepted. */
  lemma PatternIsValid(l: string, a: string, b: string)
    requires l != [] && a != [] && b != []
    requires IsAtom(l) && IsAtom(a) && IsAtom(b)
    ensures IsValidEmail(l + "@" + a + "." + b)
  {
    var s := l + "@" + a + "." + b;
    var i := |l|;
    var d := a + "." + b;
    assert s == l + "@" + d;
    assert s[..i] == l && s[i] == '@' && s[i + 1..] == d;
    assert d[|a|] == '.';
    assert IsAtom(d) by {
      forall k | 0 <= k < |d| ensures IsAtomChar(d[k]) {
        if k < |a| { assert d[k] == a[k]; }
        else if k > |a| { assert d[k] == b[k - |a| - 1]; }
      }
    }
  }

  /** The predicate accepts exactly the strings the pattern matches. */
  lemma EmailPatternEquivalence(s: string)
    ensures IsValidEmail(s) <==> MatchesEmailPattern(s)
  {
    if IsValidEmail(s) {
      ValidMatchesPattern(s);
    }
    if MatchesEmailPattern(s) {
      var l: string, a: string, b: string :| IsPatternSplit(s, l, a, b);
      PatternIsValid(l, a, b);
    }
  }

  /** An accepted address has no whitespace anywhere. */
  lemma ValidHasNoWhitespace(s: string, k: nat)
    requires IsValidEmail(s) && k < |s|
    ensures !IsWhitespace(s[k])
  {
  }

  /** A string with a whitespace character anywhere is rejected. */
  lemma WhitespaceRejected(s: string, k: nat)
    requires k < |s| && IsWhitespace(s[k])
    ensures !IsValidEmail(s)
  {
  }

  /** An accepted address contains exactly one at sign. */
  lemma ValidHasOneAt(s: string)
    requires IsValidEmail(s)
    ensures Count(s, '@') == 1
  {
    var i :| 0 < i < |s| && s[i] == '@' && IsAtom(s[..i]) && IsDomain(s[i + 1..]);
    OneAtBetweenAtoms(s, i);
  }

  lemma OneAtBetweenAtoms(s: string, i: nat)
    requires i < |s| && s[i] == '@' && IsAtom(s[..i]) && IsAtom(s[i + 1..])
    ensures Count(s, '@') == 1
  {
    var l, d := s[..i], s[i + 1..];
    assert s == l + [s[i]] + d;
    CountConcat(l + [s[i]], d, '@');
    CountConcat(l, [s[i]], '@');
    CountSingle(s[i], '@');
    CountAbsent(l, '@');
    CountAbsent(d, '@');
  }

  /** With the at sign between `l` and `d`, the address is accepted only if `d` has a dot
      strictly inside it; so a domain whose dots are all first or last is rejected. */
  lemma DomainNeedsInnerDot(l: string, d: string)
    requires forall j :: 0 < j < |d| - 1 ==> d[j] != '.'
    ensures !IsValidEmail(l + "@" + d)
  {
    var s := l + "@" + d;
    assert s[|l|] == '@';
    forall i | 0 < i < |s| && s[i] == '@'
      ensures !(IsAtom(s[..i]) && IsDomain(s[i + 1..]))
    {
      if i < |l| {
        assert s[i + 1..][|l| - i - 1] == '@';
      } else if i > |l| {
        assert s[..i][|l|] == '@';
      } else {
        assert s[i + 1..] == d;
      }
    }
  }

  /** A string without an at sign is rejected. */
  lemma NoAtRejected(s: string)
    requires forall k :: 0 <= k < |s| ==> s[k] != '@'
    ensures !IsValidEmail(s)
  {
  }

  /** Strings isValidEmail rejects (empty, no dot after the at sign, no at sign, a dot next
      to the at sign or at the end, a space) and the shortest string it accepts. */
  lemma Examples()
    ensures !IsValidEmail("")
    ensures !IsValidEmail("a@b")
    ensures !IsValidEmail("noat.com")
    ensures !IsValidEmail("a@.b") && !IsValidEmail("a@b.")
    ensures !IsValidEmail("a b@c.d")
    ensures IsValidEmail("a@b.c")
  {
    DomainNeedsInnerDot("a", "b");
    NoAtRejected("noat.com");
    DomainNeedsInnerDot("a", ".b");
    DomainNeedsInnerDot("a", "b.");
    WhitespaceRejected("a b@c.d", 1);
    var s := "a@b.c";
    assert s[..1] == "a" && s[2..] == "b.c";
    assert IsDomain(s[2..]) by { assert s[2..][1] == '.'; }
  }
}
