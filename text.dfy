/** Characters and string helpers shared by the credential checks.

    JavaScript strings are modelled as `string` (a sequence of Unicode scalar
    values). `String.prototype.trim` and the regular-expression class `\s`
    use the same fixed set of characters (ECMAScript WhiteSpace and
    LineTerminator), which `IsWhitespace` spells out. The classes `[a-z]`,
    `[A-Z]` and `\d` (without the `u` flag) are ASCII only. */
module Text {

  /** ECMAScript WhiteSpace and LineTerminator: the characters `trim`
      removes and `\s` matches. */
  predicate IsWhitespace(c: char) {
    || ('\t' <= c <= '\r')          // tab, line feed, vertical tab, form feed, carriage return
    || c == ' '
    || c == '\U{00A0}'              // no-break space
    || c == '\U{1680}'              // ogham space mark
    || ('\U{2000}' <= c <= '\U{200A}')
    || c == '\U{2028}' || c == '\U{2029}'   // line and paragraph separators
    || c == '\U{202F}' || c == '\U{205F}' || c == '\U{3000}'
    || c == '\U{FEFF}'              // byte order mark
  }

  /** `[A-Z]` */
  predicate IsAsciiUpper(c: char) { 'A' <= c <= 'Z' }

  /** `[a-z]` */
  predicate IsAsciiLower(c: char) { 'a' <= c <= 'z' }

  /** `\d` */
  predicate IsAsciiDigit(c: char) { '0' <= c <= '9' }

  /** `[a-zA-Z\d]`; its complement is the scorer's "symbol" class. */
  predicate IsAsciiAlnum(c: char) { IsAsciiLower(c) || IsAsciiUpper(c) || IsAsciiDigit(c) }

  /** Every character of `s` is whitespace (so `trim` leaves nothing). */
  predicate AllWhitespace(s: string) {
    forall k :: 0 <= k < |s| ==> IsWhitespace(s[k])
  }

  /** `s` neither starts nor ends with whitespace. */
  predicate IsTrimmed(s: string) {
    s == [] || (!IsWhitespace(s[0]) && !IsWhitespace(s[|s| - 1]))
  }

  /** Leading whitespace removed. */
  function TrimStart(s: string): (r: string)
    ensures |r| <= |s|
    ensures r == [] || !IsWhitespace(r[0])
  {
    if s != [] && IsWhitespace(s[0]) then TrimStart(s[1..]) else s
  }

  /** `TrimStart` keeps a suffix of `s` and removes only whitespace. */
  lemma {:induction false} TrimStartSuffix(s: string)
    ensures var n := |s| - |TrimStart(s)|;
            TrimStart(s) == s[n..] && AllWhitespace(s[..n])
  {
    if s != [] && IsWhitespace(s[0]) {
      var r := TrimStart(s[1..]);
      TrimStartSuffix(s[1..]);
      assert s[1..][..|s[1..]| - |r|] == s[1..|s| - |r|];
    }
  }

  /** Trailing whitespace removed. */
  function TrimEnd(s: string): (r: string)
    ensures |r| <= |s|
    ensures r == [] || !IsWhitespace(r[|r| - 1])
  {
    if s != [] && IsWhitespace(s[|s| - 1]) then TrimEnd(s[..|s| - 1]) else s
  }

  /** `TrimEnd` keeps a prefix of `s` and removes only whitespace. */
  lemma {:induction false} TrimEndPrefix(s: string)
    ensures var n := |TrimEnd(s)|;
            TrimEnd(s) == s[..n] && AllWhitespace(s[n..])
  {
    if s != [] && IsWhitespace(s[|s| - 1]) {
      var r := TrimEnd(s[..|s| - 1]);
      TrimEndPrefix(s[..|s| - 1]);
      assert s[..|s| - 1][|r|..] == s[|r|..|s| - 1];
    }
  }

  /** `String.prototype.trim`: whitespace removed from both ends. */
  function Trim(s: string): (r: string)
    ensures IsTrimmed(r)
  {
    var t := TrimStart(s);
    var r := TrimEnd(t);
    assert r != [] ==> !IsWhitespace(r[0]) by {
      if r != [] {
        TrimEndPrefix(t);
        assert r[0] == t[0];
      }
    }
    r
  }

  /** What `Trim` keeps is the infix `s[i..j]`, and what it removes on
      either side is whitespace. */
  lemma TrimIsInfix(s: string)
    ensures exists i, j ::
              && 0 <= i <= j <= |s| && Trim(s) == s[i..j]
              && AllWhitespace(s[..i]) && AllWhitespace(s[j..])
  {
    var t := TrimStart(s);
    var r := TrimEnd(t);
    var i := |s| - |t|;
    TrimStartSuffix(s);
    TrimEndPrefix(t);
    assert r == s[i..i + |r|];
    assert t[|r|..] == s[i + |r|..];
  }

  /** Trimming leaves nothing exactly when every character is whitespace:
      the "required" check rejects blank input of any length. */
  lemma TrimEmptyIffBlank(s: string)
    ensures Trim(s) == [] <==> AllWhitespace(s)
  {
    var t := TrimStart(s);
    TrimStartSuffix(s);
    if t != [] {
      // t[0] is not whitespace, and TrimEnd keeps it
      TrimEndPrefix(t);
      assert t[0] == s[|s| - |t|];
    } else {
      assert s[..|s|] == s;
    }
  }

  /** A string without surrounding whitespace is left as it is. */
  lemma {:induction false} TrimOfTrimmed(s: string)
    requires IsTrimmed(s)
    ensures Trim(s) == s
  {
    assert TrimStart(s) == s;
    assert TrimEnd(s) == s;
  }

  /** Trimming twice is trimming once. */
  lemma TrimIdempotent(s: string)
    ensures Trim(Trim(s)) == Trim(s)
  {
    TrimOfTrimmed(Trim(s));
  }

  /** One character of `toLowerCase`, ASCII only: a capital becomes its
      lowercase letter, anything else is kept. */
  function LowerChar(c: char): (r: char)
    ensures IsAsciiUpper(c) ==> IsAsciiLower(r) && r as int == c as int + 32
    ensures !IsAsciiUpper(c) ==> r == c
  {
    if IsAsciiUpper(c) then (c as int + 32) as char else c
  }

  /** ASCII part of `String.prototype.toLowerCase`, character by character. */
  function ToLowerAscii(s: string): (r: string)
    ensures |r| == |s|
    ensures forall k :: 0 <= k < |s| ==> r[k] == LowerChar(s[k])
  {
    if s == [] then [] else [LowerChar(s[0])] + ToLowerAscii(s[1..])
  }

  /** `formatEmail`: lower-cased, then trimmed. */
  function FormatEmail(email: string): (r: string)
    ensures IsTrimmed(r)
    ensures forall k :: 0 <= k < |r| ==> !IsAsciiUpper(r[k])
  {
    var lower := ToLowerAscii(email);
    assert forall k :: 0 <= k < |lower| ==> !IsAsciiUpper(lower[k]);
    NoCapitalSurvivesTrim(lower);
    Trim(lower)
  }

  /** Trimming only removes characters, so it introduces no capital. */
  lemma NoCapitalSurvivesTrim(s: string)
    requires forall k :: 0 <= k < |s| ==> !IsAsciiUpper(s[k])
    ensures forall k :: 0 <= k < |Trim(s)| ==> !IsAsciiUpper(Trim(s)[k])
  {
    var t := TrimStart(s);
    TrimStartSuffix(s);
    TrimEndPrefix(t);
    var n, r := |s| - |t|, Trim(s);
    forall k | 0 <= k < |r| ensures !IsAsciiUpper(r[k]) {
      assert r[k] == t[k] == s[n + k];
    }
  }

  /** Formatting an address that is already formatted changes nothing. */
  lemma FormatEmailIdempotent(email: string)
    ensures FormatEmail(FormatEmail(email)) == FormatEmail(email)
  {
    var f := FormatEmail(email);
    LowerOfLower(f);
    TrimOfTrimmed(f);
  }

  /** `formatEmail` returns the lower-cased input with only whitespace
      removed at each end. */
  lemma {:induction false} FormatEmailIsLoweredInfix(email: string)
    ensures exists i, j ::
              && 0 <= i <= j <= |email|
              && AllWhitespace(email[..i]) && AllWhitespace(email[j..])
              && FormatEmail(email) == ToLowerAscii(email[i..j])
  {
    var lower := ToLowerAscii(email);
    TrimIsInfix(lower);
    var i, j :| && 0 <= i <= j <= |lower| && Trim(lower) == lower[i..j]
                && AllWhitespace(lower[..i]) && AllWhitespace(lower[j..]);
    assert lower[..i] == lower[0..i] && email[..i] == email[0..i];
    assert lower[j..] == lower[j..|lower|] && email[j..] == email[j..|email|];
    LowerKeepsWhitespace(email, 0, i);
    LowerKeepsWhitespace(email, j, |email|);
    LowerOfSlice(email, i, j);
  }

  /** A whitespace character is no capital, so a run that is whitespace
      after lower-casing was the same whitespace before. */
  lemma {:induction false} LowerKeepsWhitespace(s: string, a: nat, b: nat)
    requires a <= b <= |s|
    requires AllWhitespace(ToLowerAscii(s)[a..b])
    ensures AllWhitespace(s[a..b])
  {
    var lower, run := ToLowerAscii(s), ToLowerAscii(s)[a..b];
    forall k | a <= k < b ensures IsWhitespace(s[k]) {
      assert IsWhitespace(run[k - a]);
      LowerCharKeepsWhitespace(s[k]);
    }
    forall k | 0 <= k < b - a ensures IsWhitespace(s[a..b][k]) {
      assert s[a..b][k] == s[a + k];
    }
  }

  /** A lowercase letter is not whitespace, so a whitespace result of
      `LowerChar` is its own argument. */
  lemma LowerCharKeepsWhitespace(c: char)
    requires IsWhitespace(LowerChar(c))
    ensures LowerChar(c) == c
  {
  }

  /** Lower-casing commutes with taking a slice. */
  lemma {:induction false} LowerOfSlice(s: string, i: nat, j: nat)
    requires i <= j <= |s|
    ensures ToLowerAscii(s[i..j]) == ToLowerAscii(s)[i..j]
  {
    var sub := s[i..j];
    forall k | 0 <= k < |sub| ensures ToLowerAscii(sub)[k] == ToLowerAscii(s)[i..j][k] {
      assert sub[k] == s[i + k];
    }
  }

  /** Lower-casing a string with no ASCII capital leaves it unchanged. */
  lemma {:induction false} LowerOfLower(s: string)
    requires forall k :: 0 <= k < |s| ==> !IsAsciiUpper(s[k])
    ensures ToLowerAscii(s) == s
  {
    if s != [] {
      LowerOfLower(s[1..]);
    }
  }
}
