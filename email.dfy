/** The address pattern `^[^\s@]+@[^\s@]+\.[^\s@]+$` that the login and
    registration forms apply to e-mail fields (js/auth.js:147).

    `MatchesEmailPattern` reads the pattern literally: three non-empty runs
    of characters that are neither whitespace nor `@`, joined by an `@` and
    a `.`. `IsEmail` decides it by locating the `@` first; the two are
    proved equal. */
module Email {
  import opened Text

  /** `[^\s@]+`: a non-empty run without whitespace and without `@`. */
  predicate IsToken(t: string) {
    t != [] && forall k :: 0 <= k < |t| ==> t[k] != '@' && !IsWhitespace(t[k])
  }

  /** The whole string matches `^[^\s@]+@[^\s@]+\.[^\s@]+$`, with `at` the
      position of the `@` and `dot` the position of the `.`. */
  ghost predicate MatchesEmailPattern(s: string) {
    exists at, dot :: 0 < at < dot < |s| && s[at] == '@' && s[dot] == '.'
      && IsToken(s[..at]) && IsToken(s[at + 1..dot]) && IsToken(s[dot + 1..])
  }

  /** Position of the first `c` in `s`, or `|s|` when there is none. */
  function IndexOf(s: string, c: char): (i: nat)
    ensures i <= |s|
    ensures i < |s| ==> s[i] == c
    ensures forall k :: 0 <= k < i ==> s[k] != c
  {
    if s == [] then 0
    else if s[0] == c then 0
    else 1 + IndexOf(s[1..], c)
  }

  /** `rest` has a `.` with at least one character on each side. */
  predicate HasInnerDot(rest: string) {
    exists d :: 1 <= d < |rest| - 1 && rest[d] == '.'
  }

  /** The pattern test: everything before the first `@` is a token, and
      everything after it is a token with an inner `.`. */
  function IsEmail(s: string): (ok: bool)
    ensures ok <==> MatchesEmailPattern(s)
  {
    var at := IndexOf(s, '@');
    var ok := at < |s| && IsToken(s[..at]) && IsToken(s[at + 1..]) && HasInnerDot(s[at + 1..]);
    assert ok <==> MatchesEmailPattern(s) by {
      if ok {
        AcceptedMatches(s, at);
      } else if MatchesEmailPattern(s) {
        MatchedIsAccepted(s);
      }
    }
    ok
  }

  lemma AcceptedMatches(s: string, at: nat)
    requires at < |s| && s[at] == '@'
    requires IsToken(s[..at]) && IsToken(s[at + 1..]) && HasInnerDot(s[at + 1..])
    ensures MatchesEmailPattern(s)
  {
    var rest := s[at + 1..];
    var d :| 1 <= d < |rest| - 1 && rest[d] == '.';
    var dot := at + 1 + d;
    assert s[at + 1..dot] == rest[..d];
    assert s[dot + 1..] == rest[d + 1..];
    assert s[dot] == '.';
  }

  lemma MatchedIsAccepted(s: string)
    requires MatchesEmailPattern(s)
    ensures var at := IndexOf(s, '@');
            at < |s| && IsToken(s[..at]) && IsToken(s[at + 1..]) && HasInnerDot(s[at + 1..])
  {
    var at, dot :| 0 < at < dot < |s| && s[at] == '@' && s[dot] == '.'
      && IsToken(s[..at]) && IsToken(s[at + 1..dot]) && IsToken(s[dot + 1..]);
    MatchedAtIsFirst(s, at, dot);
    MatchedDomain(s, at, dot);
  }

  /** In a match, the pattern's `@` is the first one. */
  lemma MatchedAtIsFirst(s: string, at: nat, dot: nat)
    requires 0 < at < dot < |s| && s[at] == '@' && s[dot] == '.'
    requires IsToken(s[..at])
    ensures IndexOf(s, '@') == at
  {
    assert forall k :: 0 <= k < at ==> s[k] != '@' by {
      forall k | 0 <= k < at ensures s[k] != '@' {
        assert s[k] == s[..at][k];
      }
    }
    FirstOccurrence(s, '@', at);
  }

  /** In a match, everything after the `@` is one token with an inner `.`. */
  lemma MatchedDomain(s: string, at: nat, dot: nat)
    requires 0 < at < dot < |s| && s[dot] == '.'
    requires IsToken(s[at + 1..dot]) && IsToken(s[dot + 1..])
    ensures IsToken(s[at + 1..]) && HasInnerDot(s[at + 1..])
  {
    var rest := s[at + 1..];
    var b, c := s[at + 1..dot], s[dot + 1..];
    assert rest == b + ['.'] + c;
    TokensJoin(b, c);
    var d := dot - at - 1;
    assert 1 <= d < |rest| - 1 && rest[d] == '.';
  }

  /** `IndexOf` finds the first occurrence. */
  lemma FirstOccurrence(s: string, c: char, i: nat)
    requires i < |s| && s[i] == c
    requires forall k :: 0 <= k < i ==> s[k] != c
    ensures IndexOf(s, c) == i
  {
  }

  /** Two tokens joined by a `.` form one token. */
  lemma TokensJoin(a: string, b: string)
    requires IsToken(a) && IsToken(b)
    ensures IsToken(a + ['.'] + b)
  {
    var t := a + ['.'] + b;
    forall k | 0 <= k < |t| ensures t[k] != '@' && !IsWhitespace(t[k]) {
      if k > |a| {
        assert t[k] == b[k - |a| - 1];
      }
    }
  }

  /** A matching address has no whitespace and exactly one `@`, which is
      neither its first nor its last character. */
  lemma MatchHasSingleAt(s: string)
    requires MatchesEmailPattern(s)
    ensures forall k :: 0 <= k < |s| ==> !IsWhitespace(s[k])
    ensures var at := IndexOf(s, '@');
            0 < at < |s| - 1 && forall k :: 0 <= k < |s| && s[k] == '@' ==> k == at
  {
    MatchedIsAccepted(s);
    var at := IndexOf(s, '@');
    var rest := s[at + 1..];
    forall k | 0 <= k < |s| ensures !IsWhitespace(s[k]) && (s[k] == '@' ==> k == at) {
      if k < at {
        assert s[k] == s[..at][k];
      } else if k > at {
        assert s[k] == rest[k - at - 1];
      }
    }
  }

  /** The pattern, described without tokens: no whitespace anywhere, a
      single `@` that is not the first character, and after it a `.` with
      at least one character on each side. */
  lemma PatternCharacterisation(s: string)
    ensures MatchesEmailPattern(s) <==>
              && (forall k :: 0 <= k < |s| ==> !IsWhitespace(s[k]))
              && exists at :: && 0 < at < |s| && s[at] == '@'
                              && (forall k :: 0 <= k < |s| && s[k] == '@' ==> k == at)
                              && HasInnerDot(s[at + 1..])
  {
    if MatchesEmailPattern(s) {
      MatchHasSingleAt(s);
      MatchedIsAccepted(s);
    }
    if && (forall k :: 0 <= k < |s| ==> !IsWhitespace(s[k]))
       && exists at :: && 0 < at < |s| && s[at] == '@'
                       && (forall k :: 0 <= k < |s| && s[k] == '@' ==> k == at)
                       && HasInnerDot(s[at + 1..])
    {
      var at :| && 0 < at < |s| && s[at] == '@'
                && (forall k :: 0 <= k < |s| && s[k] == '@' ==> k == at)
                && HasInnerDot(s[at + 1..]);
      SingleAtAccepted(s, at);
    }
  }

  /** With no whitespace and a single `@`, the pattern reduces to the inner dot. */
  lemma SingleAtAccepted(s: string, at: nat)
    requires forall k :: 0 <= k < |s| ==> !IsWhitespace(s[k])
    requires 0 < at < |s| && s[at] == '@'
    requires forall k :: 0 <= k < |s| && s[k] == '@' ==> k == at
    requires HasInnerDot(s[at + 1..])
    ensures MatchesEmailPattern(s)
  {
    var head, rest := s[..at], s[at + 1..];
    forall k | 0 <= k < |head| ensures head[k] != '@' && !IsWhitespace(head[k]) {
      assert head[k] == s[k];
    }
    forall k | 0 <= k < |rest| ensures rest[k] != '@' && !IsWhitespace(rest[k]) {
      assert rest[k] == s[at + 1 + k];
    }
    AcceptedMatches(s, at);
  }

  /** The sample address of the login scenario matches. */
  lemma SampleAddressMatches()
    ensures MatchesEmailPattern("user@example.com")
  {
    var s := "user@example.com";
    assert s[..4] == "user" && s[5..12] == "example" && s[13..] == "com";
    assert s[4] == '@' && s[12] == '.';
  }

  /** Without an `@` there is no match. */
  lemma NoAtRejected(s: string)
    requires '@' !in s
    ensures !MatchesEmailPattern(s)
  {
  }

  /** Without a `.` there is no match: a bare host name is refused. */
  lemma NoDotRejected(s: string)
    requires '.' !in s
    ensures !MatchesEmailPattern(s)
  {
  }

  /** A final `.` does not count: the part after the dot must be non-empty. */
  lemma TrailingDotRejected(s: string)
    requires s != [] && '.' !in s[..|s| - 1]
    ensures !MatchesEmailPattern(s)
  {
  }

  /** Two `@` signs rule a match out. */
  lemma SecondAtRejected(s: string, i: nat, j: nat)
    requires i < j < |s| && s[i] == '@' && s[j] == '@'
    ensures !MatchesEmailPattern(s)
  {
    if MatchesEmailPattern(s) {
      MatchHasSingleAt(s);
    }
  }

  /** Whitespace anywhere, the last position included, rules a match out. */
  lemma WhitespaceRejected(s: string, i: nat)
    requires i < |s| && IsWhitespace(s[i])
    ensures !MatchesEmailPattern(s)
  {
    if MatchesEmailPattern(s) {
      MatchHasSingleAt(s);
    }
  }

  /** Addresses the pattern refuses: no `@`, nothing before it, two `@`,
      no `.` after it, an empty top-level part, embedded or trailing
      whitespace. */
  lemma RejectedAddresses()
    ensures !MatchesEmailPattern("userexample.com")
    ensures !MatchesEmailPattern("@example.com")
    ensures !MatchesEmailPattern("a@b@c.com")
    ensures !MatchesEmailPattern("user@localhost")
    ensures !MatchesEmailPattern("user@example.")
    ensures !MatchesEmailPattern("us er@example.com")
    ensures !MatchesEmailPattern("a@b.c ")
  {
    NoAtRejected("userexample.com");
    NoDotRejected("user@localhost");
    TrailingDotRejected("user@example.");
    SecondAtRejected("a@b@c.com", 1, 3);
    WhitespaceRejected("us er@example.com", 2);
    WhitespaceRejected("a@b.c ", 5);
  }
}
