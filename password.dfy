/** The two password checks of the authentication page.

    The requirement gate (`validatePassword`, js/auth.js:69-96) decides
    whether a password may be submitted: at least eight characters, an
    ASCII capital and a digit. The strength scorer
    (`validatePasswordStrength`, js/auth.js:478-491) counts five criteria
    and rates the total. The two disagree on purpose: lowercase letters and
    symbols raise the score but do not matter to the gate. */
module Passwords {
  import opened Text

  /** `/[A-Z]/.test(p)` */
  predicate HasUpper(p: string) { exists i :: 0 <= i < |p| && IsAsciiUpper(p[i]) }

  /** `/[a-z]/.test(p)` */
  predicate HasLower(p: string) { exists i :: 0 <= i < |p| && IsAsciiLower(p[i]) }

  /** `/\d/.test(p)` */
  predicate HasDigit(p: string) { exists i :: 0 <= i < |p| && IsAsciiDigit(p[i]) }

  /** `/[^a-zA-Z\d]/.test(p)` */
  predicate HasSymbol(p: string) { exists i :: 0 <= i < |p| && !IsAsciiAlnum(p[i]) }

  // ---------------------------------------------------------------------
  // The requirement gate

  /** The `checks` object: one flag per requirement shown beside the field. */
  datatype Requirements = Requirements(length: bool, uppercase: bool, number: bool)

  function RequirementChecks(password: string): Requirements {
    Requirements(|password| >= 8, HasUpper(password), HasDigit(password))
  }

  /** `validatePassword`: every requirement flag is set. */
  function ValidatePassword(password: string): (ok: bool)
    ensures ok <==> |password| >= 8 && HasUpper(password) && HasDigit(password)
  {
    var checks := RequirementChecks(password);
    checks.length && checks.uppercase && checks.number
  }

  /** Characters that are neither capitals nor digits do not matter to the
      gate: swapping one such character for another never changes the
      verdict, so lowercase letters and symbols are interchangeable. */
  lemma GateIgnoresOtherCharacters(p: string, i: nat, a: char, b: char)
    requires i < |p|
    requires !IsAsciiUpper(a) && !IsAsciiDigit(a) && !IsAsciiUpper(b) && !IsAsciiDigit(b)
    ensures ValidatePassword(p[i := a]) == ValidatePassword(p[i := b])
  {
    var pa, pb := p[i := a], p[i := b];
    assert HasUpper(pa) <==> HasUpper(pb) by {
      if HasUpper(pa) {
        var k :| 0 <= k < |pa| && IsAsciiUpper(pa[k]);
        assert pb[k] == pa[k];
      }
      if HasUpper(pb) {
        var k :| 0 <= k < |pb| && IsAsciiUpper(pb[k]);
        assert pa[k] == pb[k];
      }
    }
    assert HasDigit(pa) <==> HasDigit(pb) by {
      if HasDigit(pa) {
        var k :| 0 <= k < |pa| && IsAsciiDigit(pa[k]);
        assert pb[k] == pa[k];
      }
      if HasDigit(pb) {
        var k :| 0 <= k < |pb| && IsAsciiDigit(pb[k]);
        assert pa[k] == pb[k];
      }
    }
  }

  // ---------------------------------------------------------------------
  // The strength scorer

  /** The five conditions the scorer counts, in the order it tests them. */
  datatype Criterion = MinLength | Lowercase | Uppercase | Digit | Symbol

  /** The criteria in the order the scorer tests them. */
  const Criteria: seq<Criterion> := [MinLength, Lowercase, Uppercase, Digit, Symbol]

  predicate Meets(password: string, c: Criterion) {
    match c
    case MinLength => |password| >= 8
    case Lowercase => HasLower(password)
    case Uppercase => HasUpper(password)
    case Digit => HasDigit(password)
    case Symbol => HasSymbol(password)
  }

  /** The members of `cs` that `password` meets, in the order of `cs`. */
  function Filter(password: string, cs: seq<Criterion>): (r: seq<Criterion>)
    ensures |r| <= |cs|
    ensures forall c :: c in r <==> c in cs && Meets(password, c)
  {
    if cs == [] then []
    else (if Meets(password, cs[0]) then [cs[0]] else []) + Filter(password, cs[1..])
  }

  /** The criteria `password` satisfies, in test order. */
  function Met(password: string): (r: seq<Criterion>)
    ensures |r| <= 5
    ensures forall c :: c in r <==> Meets(password, c)
  {
    assert forall c: Criterion :: c in Criteria by {
      forall c: Criterion ensures c in Criteria {
        assert c == Criteria[0] || c == Criteria[1] || c == Criteria[2] || c == Criteria[3] || c == Criteria[4];
      }
    }
    Filter(password, Criteria)
  }

  datatype Level = Weak | Medium | Strong

  /** The scorer's result: `{score, level}`. */
  datatype Strength = Strength(score: nat, level: Level)

  /** `validatePasswordStrength`: one point per satisfied criterion, then
      below 2 is weak, below 4 medium, and 4 or 5 strong. */
  method ValidatePasswordStrength(password: string) returns (result: Strength)
    ensures result.score == |Met(password)| && result.score <= 5
    ensures result.level == Weak <==> result.score < 2
    ensures result.level == Medium <==> 2 <= result.score < 4
    ensures result.level == Strong <==> 4 <= result.score
  {
    var strength := 0;
    if |password| >= 8 {
      strength := strength + 1;
    }
    if HasLower(password) {
      strength := strength + 1;
    }
    if HasUpper(password) {
      strength := strength + 1;
    }
    if HasDigit(password) {
      strength := strength + 1;
    }
    if HasSymbol(password) {
      strength := strength + 1;
    }
    MetSize(password);
    var level := if strength < 2 then Weak else if strength < 4 then Medium else Strong;
    result := Strength(strength, level);
  }

  function Point(b: bool): nat { if b then 1 else 0 }

  /** One point per criterion met. */
  lemma MetSize(password: string)
    ensures |Met(password)| == Point(|password| >= 8) + Point(HasLower(password))
              + Point(HasUpper(password)) + Point(HasDigit(password)) + Point(HasSymbol(password))
  {
    var s4: seq<Criterion> := [Symbol];
    var s3, s2, s1 := [Digit] + s4, [Uppercase] + [Digit] + s4, [Lowercase] + [Uppercase] + [Digit] + s4;
    assert s4[1..] == [] && s3[1..] == s4 && s2[1..] == s3 && s1[1..] == s2 && Criteria[1..] == s1;
    assert |Filter(password, s4)| == Point(HasSymbol(password));
    assert |Filter(password, s3)| == Point(HasDigit(password)) + |Filter(password, s4)|;
    assert |Filter(password, s2)| == Point(HasUpper(password)) + |Filter(password, s3)|;
    assert |Filter(password, s1)| == Point(HasLower(password)) + |Filter(password, s2)|;
  }

  /** A password the gate accepts meets at least three criteria (length,
      capital, digit), so the scorer never rates it weak. */
  lemma GateImpliesAtLeastMedium(password: string)
    requires ValidatePassword(password)
    ensures |Met(password)| >= 3
  {
    MetSize(password);
  }

  /** The scores of the sample passwords: the empty one meets nothing,
      `"pass"` only the lowercase criterion, `"Password1"` all but the
      symbol criterion. */
  lemma SampleScores()
    ensures |Met("")| == 0
    ensures |Met("pass")| == 1
    ensures |Met("Password1")| == 4 && Symbol !in Met("Password1")
  {
    MetSize("");
    MetSize("pass");
    MetSize("Password1");
    ClassesOfPass();
    ClassesOfPassword1();
  }

  lemma ClassesOfPass()
    ensures HasLower("pass") && !HasUpper("pass") && !HasDigit("pass") && !HasSymbol("pass")
  {
    var q := "pass";
    assert IsAsciiLower(q[0]);
    assert forall i | 0 <= i < |q| :: IsAsciiLower(q[i]);
  }

  lemma ClassesOfPassword1()
    ensures HasLower("Password1") && HasUpper("Password1") && HasDigit("Password1")
    ensures !HasSymbol("Password1")
  {
    var p := "Password1";
    assert IsAsciiUpper(p[0]) && IsAsciiLower(p[1]) && IsAsciiDigit(p[8]);
    assert forall i | 0 <= i < |p| :: IsAsciiAlnum(p[i]);
  }

  /** The gate and the scorer disagree both ways: a password with four
      criteria but no capital is rejected, and one with only the three
      required criteria is accepted. */
  lemma GateAndScorerDisagree()
    ensures |Met("password1!")| == 4 && !ValidatePassword("password1!")
    ensures |Met("PASSWORD1")| == 3 && ValidatePassword("PASSWORD1")
  {
    MetSize("password1!");
    MetSize("PASSWORD1");
    ClassesOfLowerWithSymbol();
    ClassesOfUpperWithDigit();
  }

  lemma ClassesOfLowerWithSymbol()
    ensures HasLower("password1!") && HasDigit("password1!") && HasSymbol("password1!")
    ensures !HasUpper("password1!")
  {
    var p := "password1!";
    assert IsAsciiLower(p[0]) && IsAsciiDigit(p[8]) && !IsAsciiAlnum(p[9]);
    assert forall i | 0 <= i < |p| :: !IsAsciiUpper(p[i]);
  }

  lemma ClassesOfUpperWithDigit()
    ensures HasUpper("PASSWORD1") && HasDigit("PASSWORD1")
    ensures !HasLower("PASSWORD1") && !HasSymbol("PASSWORD1")
  {
    var q := "PASSWORD1";
    assert IsAsciiUpper(q[0]) && IsAsciiDigit(q[8]);
    assert forall i | 0 <= i < |q| :: IsAsciiUpper(q[i]) || IsAsciiDigit(q[i]);
  }

  // ---------------------------------------------------------------------
  // Live confirmation check

  /** `validatePasswordMatch`'s decision: a mismatch is reported only once
      something has been typed into the confirmation field. */
  function ValidatePasswordMatch(password: string, confirmPassword: string): (ok: bool)
    ensures ok <==> confirmPassword == "" || confirmPassword == password
  {
    !(confirmPassword != "" && password != confirmPassword)
  }
}
