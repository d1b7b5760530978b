/** The portal's input-validation pattern `REGEX_CHECK`.

    The pattern is written as a UTF-8 byte grammar, but Django's RegexValidator
    applies it to a Python `str`, so every `\xNN` in it denotes the code point
    U+00NN and every character class matches exactly one code point. Read that
    way the pattern is a star over eight alternatives: four single characters,
    three pairs and one triple. */
module PortalRegex {

  /** Alternative 1: tab, line feed, carriage return and printable ASCII. */
  predicate Ascii(c: char) {
    c == '\t' || c == '\n' || c == '\r' || (' ' <= c <= '~')
  }

  /** Alternative 2: `[\xC2-\xDF]`. */
  predicate TwoByteLead(c: char) {
    '\U{C2}' <= c <= '\U{DF}'
  }

  /** Alternative 3: `[\xE0\xA0-\xBF]`, one character, either U+00E0 or U+00A0..U+00BF. */
  predicate NotOverlong(c: char) {
    c == '\U{E0}' || ('\U{A0}' <= c <= '\U{BF}')
  }

  /** Alternative 4 takes two characters of this class: `[\xE1-\xEC\xEE\xEF]`. */
  predicate ThreeByteLead(c: char) {
    ('\U{E1}' <= c <= '\U{EC}') || c == '\U{EE}' || c == '\U{EF}'
  }

  /** Alternative 5: `[\xED\x80-\x9F]`, one character. */
  predicate NotSurrogate(c: char) {
    c == '\U{ED}' || ('\U{80}' <= c <= '\U{9F}')
  }

  /** Alternative 6 takes two characters of this class: `[\xF0\x90-\xBF]`. */
  predicate Planes1To3(c: char) {
    c == '\U{F0}' || ('\U{90}' <= c <= '\U{BF}')
  }

  /** Alternative 7 takes three characters of this class: `[\xF1-\xF3]`. */
  predicate Planes4To15(c: char) {
    '\U{F1}' <= c <= '\U{F3}'
  }

  /** Alternative 8 takes two characters of this class: `[\xF4\x80-\x8F]`. */
  predicate Plane16(c: char) {
    c == '\U{F4}' || ('\U{80}' <= c <= '\U{8F}')
  }

  /** The alternatives that consume a single character. */
  predicate Single(c: char) {
    Ascii(c) || TwoByteLead(c) || NotOverlong(c) || NotSurrogate(c)
  }

  /** `re.match(REGEX_CHECK, s)` succeeds: `s` splits into a sequence of
      alternatives, tried in every possible way. */
  predicate Matches(s: string)
    decreases |s|
  {
    if s == [] then true
    else
      (Single(s[0]) && Matches(s[1..]))
      || (|s| >= 2 && ThreeByteLead(s[0]) && ThreeByteLead(s[1]) && Matches(s[2..]))
      || (|s| >= 2 && Planes1To3(s[0]) && Planes1To3(s[1]) && Matches(s[2..]))
      || (|s| >= 3 && Planes4To15(s[0]) && Planes4To15(s[1]) && Planes4To15(s[2]) && Matches(s[3..]))
      || (|s| >= 2 && Plane16(s[0]) && Plane16(s[1]) && Matches(s[2..]))
  }

  /** A character that occurs in some alternative. */
  predicate Allowed(c: char) {
    Single(c) || ThreeByteLead(c) || Planes1To3(c) || Planes4To15(c) || Plane16(c)
  }

  /** The characters that no alternative mentions. */
  predicate Forbidden(c: char) {
    c > '\U{FF}'
    || ('\0' <= c <= '\U{8}') || c == '\U{B}' || c == '\U{C}' || ('\U{E}' <= c <= '\U{1F}')
    || c == '\U{7F}'
    || c == '\U{C0}' || c == '\U{C1}'
    || ('\U{F5}' <= c <= '\U{FF}')
  }

  /** Every string of tabs, line feeds, carriage returns and printable ASCII
      matches; in particular the empty string does. */
  lemma {:induction false} AsciiMatches(s: string)
    requires forall i :: 0 <= i < |s| ==> Ascii(s[i])
    ensures Matches(s)
    decreases |s|
  {
    if s != [] {
      AsciiMatches(s[1..]);
    }
  }

  /** A matching string contains only characters some alternative mentions. */
  lemma {:induction false} MatchesOnlyAllowed(s: string)
    requires Matches(s)
    ensures forall i :: 0 <= i < |s| ==> Allowed(s[i])
    decreases |s|
  {
    if s != [] {
      if Single(s[0]) && Matches(s[1..]) {
        MatchesOnlyAllowed(s[1..]);
        assert forall i :: 1 <= i < |s| ==> s[i] == s[1..][i - 1];
      } else if |s| >= 3 && Planes4To15(s[0]) && Planes4To15(s[1]) && Planes4To15(s[2]) && Matches(s[3..]) {
        MatchesOnlyAllowed(s[3..]);
        assert forall i :: 3 <= i < |s| ==> s[i] == s[3..][i - 3];
      } else {
        MatchesOnlyAllowed(s[2..]);
        assert forall i :: 2 <= i < |s| ==> s[i] == s[2..][i - 2];
      }
    }
  }

  /** A string holding a code point above U+00FF, a control character other than
      tab, line feed and carriage return, U+007F, U+00C0, U+00C1 or U+00F5..U+00FF
      never matches. */
  lemma RejectsForbidden(s: string, k: nat)
    requires k < |s| && Forbidden(s[k])
    ensures !Matches(s)
  {
    assert !Allowed(s[k]);
    if Matches(s) {
      MatchesOnlyAllowed(s);
      assert false;
    }
  }

  /** The language is closed under concatenation. */
  lemma {:induction false} MatchesConcat(a: string, b: string)
    requires Matches(a) && Matches(b)
    ensures Matches(a + b)
    decreases |a|
  {
    if a == [] {
      assert a + b == b;
    } else {
      var n := TokenLength(a);
      MatchesConcat(a[n..], b);
      TokenThenMatch(a, b, n);
    }
  }

  /** The first alternative of `a`, followed by a matching `a[n..] + b`, makes
      `a + b` match. */
  lemma TokenThenMatch(a: string, b: string, n: nat)
    requires 1 <= n <= 3 && n <= |a| && Matches(a[n..] + b)
    requires n == 1 ==> Single(a[0])
    requires n == 2 ==> (ThreeByteLead(a[0]) && ThreeByteLead(a[1])) || (Planes1To3(a[0]) && Planes1To3(a[1])) || (Plane16(a[0]) && Plane16(a[1]))
    requires n == 3 ==> Planes4To15(a[0]) && Planes4To15(a[1]) && Planes4To15(a[2])
    ensures Matches(a + b)
  {
    var s := a + b;
    DropAppend(a, b, n);
    assert s[0] == a[0];
    if n >= 2 {
      assert s[1] == a[1];
    }
    if n == 3 {
      assert s[2] == a[2];
    }
  }

  lemma DropAppend(a: string, b: string, n: nat)
    requires n <= |a|
    ensures (a + b)[n..] == a[n..] + b
  {
  }

  /** `s[i..j]` is a maximal run of characters satisfying the class `p`. */
  predicate MaximalRun(s: string, i: nat, j: nat, p: char -> bool) {
    i <= j <= |s|
    && (forall k :: i <= k < j ==> p(s[k]))
    && (i == 0 || !p(s[i - 1]))
    && (j == |s| || !p(s[j]))
  }

  /** A maximal run at the start of a matching string: alternative 4 is the
      only one that consumes a character of this class. */
  lemma {:induction false} ThreeByteLeadRunFromStart(s: string, j: nat)
    requires Matches(s)
    requires MaximalRun(s, 0, j, ThreeByteLead)
    ensures j % 2 == 0
    decreases |s|
  {
    if 0 < j {
      assert ThreeByteLead(s[0]);
      assert |s| >= 2 && ThreeByteLead(s[1]) && Matches(s[2..]);
      assert j >= 2;
      var t := s[2..];
      assert forall k :: 0 <= k < j - 2 ==> t[k] == s[k + 2];
      assert j - 2 < |t| ==> t[j - 2] == s[j];
      ThreeByteLeadRunFromStart(t, j - 2);
    }
  }

  /** U+00E1..U+00EC, U+00EE and U+00EF are accepted only in pairs: in a matching
      string every maximal run of them has even length. */
  lemma {:induction false} ThreeByteLeadRunsEven(s: string, i: nat, j: nat)
    requires Matches(s)
    requires MaximalRun(s, i, j, ThreeByteLead)
    ensures (j - i) % 2 == 0
    decreases |s|
  {
    if i < j {
      if i == 0 {
        ThreeByteLeadRunFromStart(s, j);
      } else {
        var n := TokenLength(s);
        assert ThreeByteLead(s[i]);
        assert i >= n by {
          if i < n {
            assert false;
          }
        }
        MaximalRunShift(s, n, i, j, ThreeByteLead);
        ThreeByteLeadRunsEven(s[n..], i - n, j - n);
      }
    }
  }

  /** A maximal run at the start of a matching string: alternative 7 is the
      only one that consumes a character of this class. */
  lemma {:induction false} Planes4To15RunFromStart(s: string, j: nat)
    requires Matches(s)
    requires MaximalRun(s, 0, j, Planes4To15)
    ensures j % 3 == 0
    decreases |s|
  {
    if 0 < j {
      assert Planes4To15(s[0]);
      assert |s| >= 3 && Planes4To15(s[1]) && Planes4To15(s[2]) && Matches(s[3..]);
      assert j >= 3;
      var t := s[3..];
      assert forall k :: 0 <= k < j - 3 ==> t[k] == s[k + 3];
      assert j - 3 < |t| ==> t[j - 3] == s[j];
      Planes4To15RunFromStart(t, j - 3);
    }
  }

  /** U+00F1..U+00F3 are accepted only in triples: in a matching string every
      maximal run of them has a length divisible by three. */
  lemma {:induction false} Planes4To15RunsInTriples(s: string, i: nat, j: nat)
    requires Matches(s)
    requires MaximalRun(s, i, j, Planes4To15)
    ensures (j - i) % 3 == 0
    decreases |s|
  {
    if i < j {
      if i == 0 {
        Planes4To15RunFromStart(s, j);
      } else {
        var n := TokenLength(s);
        assert Planes4To15(s[i]);
        assert i >= n by {
          if i < n {
            assert false;
          }
        }
        MaximalRunShift(s, n, i, j, Planes4To15);
        Planes4To15RunsInTriples(s[n..], i - n, j - n);
      }
    }
  }

  /** Dropping a prefix that ends before a maximal run keeps it maximal. */
  lemma MaximalRunShift(s: string, n: nat, i: nat, j: nat, p: char -> bool)
    requires 0 < n <= i && MaximalRun(s, i, j, p)
    ensures MaximalRun(s[n..], i - n, j - n, p)
  {
    var t := s[n..];
    assert forall k :: 0 <= k < |t| ==> t[k] == s[k + n];
  }

  /** The length of one way to take the first alternative off a matching,
      non-empty string; a character of the pair and triple classes is consumed
      only by its own alternative. */
  function TokenLength(s: string): (n: nat)
    requires s != [] && Matches(s)
    ensures 1 <= n <= |s| && n <= 3 && Matches(s[n..])
    ensures n == 1 ==> Single(s[0])
    ensures ThreeByteLead(s[0]) ==> n == 2 && ThreeByteLead(s[1])
    ensures Planes4To15(s[0]) ==> n == 3 && Planes4To15(s[1]) && Planes4To15(s[2])
    ensures n == 2 ==> (ThreeByteLead(s[0]) && ThreeByteLead(s[1])) || (Planes1To3(s[0]) && Planes1To3(s[1])) || (Plane16(s[0]) && Plane16(s[1]))
    ensures n == 3 ==> Planes4To15(s[0]) && Planes4To15(s[1]) && Planes4To15(s[2])
  {
    if Single(s[0]) && Matches(s[1..]) then 1
    else if |s| >= 3 && Planes4To15(s[0]) && Planes4To15(s[1]) && Planes4To15(s[2]) && Matches(s[3..]) then 3
    else 2
  }

  /** A string made only of U+00E1..U+00EC, U+00EE, U+00EF matches exactly when
      its length is even. */
  lemma {:induction false} ThreeByteLeadOnly(s: string)
    requires forall k :: 0 <= k < |s| ==> ThreeByteLead(s[k])
    ensures Matches(s) <==> |s| % 2 == 0
    decreases |s|
  {
    if Matches(s) {
      ThreeByteLeadRunsEven(s, 0, |s|);
    }
    if |s| % 2 == 0 && s != [] {
      ThreeByteLeadOnly(s[2..]);
    }
  }

  /** A string made only of U+00F1..U+00F3 matches exactly when its length is a
      multiple of three. */
  lemma {:induction false} Planes4To15Only(s: string)
    requires forall k :: 0 <= k < |s| ==> Planes4To15(s[k])
    ensures Matches(s) <==> |s| % 3 == 0
    decreases |s|
  {
    if Matches(s) {
      Planes4To15RunsInTriples(s, 0, |s|);
    }
    if |s| % 3 == 0 && s != [] {
      Planes4To15Only(s[3..]);
    }
  }

  /** "é" (U+00E9) on its own is rejected; doubled it is accepted. */
  lemma AccentedE()
    ensures !Matches("\U{E9}")
    ensures Matches("\U{E9}\U{E9}")
  {
    ThreeByteLeadOnly("\U{E9}");
    ThreeByteLeadOnly("\U{E9}\U{E9}");
  }
}
