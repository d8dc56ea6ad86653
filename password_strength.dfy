/**
 * The password-strength scorer: five requirements, a score capped at 4, one
 * feedback entry per unmet requirement, and a validity verdict.
 */
module PasswordStrength {
  import Text

  predicate IsUpper(c: char) { 'A' <= c <= 'Z' }
  predicate IsLower(c: char) { 'a' <= c <= 'z' }

  /** The character class `[!@#$%^&*()_+\-=\[\]{};':"\\|,.<>\/?]`. */
  predicate IsSpecial(c: char) {
    c in "!@#$%^&*()_+-=[]{};':\"\\|,.<>/?"
  }

  /** `/[A-Z]/.test(password)` and its siblings. */
  predicate HasUpper(pw: string) { exists i :: 0 <= i < |pw| && IsUpper(pw[i]) }
  predicate HasLower(pw: string) { exists i :: 0 <= i < |pw| && IsLower(pw[i]) }
  predicate HasDigit(pw: string) { exists i :: 0 <= i < |pw| && Text.IsDigit(pw[i]) }
  predicate HasSpecial(pw: string) { exists i :: 0 <= i < |pw| && IsSpecial(pw[i]) }

  /** The five requirements, in the order their feedback is given. */
  datatype Requirement = MinLength | Uppercase | Lowercase | Numbers | SpecialChars

  const RequirementOrder: seq<Requirement> := [MinLength, Uppercase, Lowercase, Numbers, SpecialChars]

  function Rank(r: Requirement): nat {
    match r
    case MinLength => 0
    case Uppercase => 1
    case Lowercase => 2
    case Numbers => 3
    case SpecialChars => 4
  }

  predicate Meets(pw: string, r: Requirement) {
    match r
    case MinLength => Text.Utf16Length(pw) >= 8
    case Uppercase => HasUpper(pw)
    case Lowercase => HasLower(pw)
    case Numbers => HasDigit(pw)
    case SpecialChars => HasSpecial(pw)
  }

  function B2N(b: bool): nat { if b then 1 else 0 }

  /** How many of `rs` the password meets. */
  function CountMet(pw: string, rs: seq<Requirement>): nat {
    if rs == [] then 0 else (if Meets(pw, rs[0]) then 1 else 0) + CountMet(pw, rs[1..])
  }

  function MetCount(pw: string): nat {
    CountMet(pw, RequirementOrder)
  }

  /** The count of met requirements, unfolded over the five of them. */
  lemma {:induction false} MetCountUnfolded(pw: string)
    ensures MetCount(pw) == B2N(Text.Utf16Length(pw) >= 8) + B2N(HasUpper(pw)) + B2N(HasLower(pw)) + B2N(HasDigit(pw)) + B2N(HasSpecial(pw))
  {
    var r0 := RequirementOrder;
    var r1, r2, r3, r4 := r0[1..], r0[2..], r0[3..], r0[4..];
    assert r1[1..] == r2 && r2[1..] == r3 && r3[1..] == r4 && r4[1..] == [];
    assert CountMet(pw, r4) == B2N(HasSpecial(pw));
    assert CountMet(pw, r3) == B2N(HasDigit(pw)) + CountMet(pw, r4);
    assert CountMet(pw, r2) == B2N(HasLower(pw)) + CountMet(pw, r3);
    assert CountMet(pw, r1) == B2N(HasUpper(pw)) + CountMet(pw, r2);
  }

  /** The requirements of `rs` the password misses, in the order of `rs`. */
  function Unmet(pw: string, rs: seq<Requirement>): (r: seq<Requirement>)
    ensures forall q :: q in r <==> q in rs && !Meets(pw, q)
    ensures |r| == |rs| - CountMet(pw, rs)
  {
    if rs == [] then []
    else
      var tail := Unmet(pw, rs[1..]);
      assert forall q :: q in rs <==> q == rs[0] || q in rs[1..];
      if Meets(pw, rs[0]) then tail else [rs[0]] + tail
  }

  /** The unmet requirements keep the order of `rs`. */
  lemma {:induction false} UnmetKeepsOrder(pw: string, rs: seq<Requirement>)
    requires forall i, j :: 0 <= i < j < |rs| ==> Rank(rs[i]) < Rank(rs[j])
    ensures forall i, j :: 0 <= i < j < |Unmet(pw, rs)| ==> Rank(Unmet(pw, rs)[i]) < Rank(Unmet(pw, rs)[j])
  {
    if rs != [] {
      UnmetKeepsOrder(pw, rs[1..]);
      var tail := Unmet(pw, rs[1..]);
      forall q | q in tail ensures Rank(rs[0]) < Rank(q) {
        var j :| 0 <= j < |rs[1..]| && rs[1..][j] == q;
        assert rs[j + 1] == q;
      }
      if !Meets(pw, rs[0]) {
        RankedCons(rs[0], tail);
      }
    }
  }

  lemma RankedCons(x: Requirement, t: seq<Requirement>)
    requires forall i, j :: 0 <= i < j < |t| ==> Rank(t[i]) < Rank(t[j])
    requires forall q :: q in t ==> Rank(x) < Rank(q)
    ensures var r := [x] + t; forall i, j :: 0 <= i < j < |r| ==> Rank(r[i]) < Rank(r[j])
  {
    var r := [x] + t;
    forall i, j | 0 <= i < j < |r| ensures Rank(r[i]) < Rank(r[j]) {
      assert r[j] == t[j - 1] && t[j - 1] in t;
      if i > 0 {
        assert r[i] == t[i - 1];
      }
    }
  }

  /** Each feedback message is identified by the requirement it asks for. */
  datatype Strength = Strength(score: nat, feedback: seq<Requirement>, isValid: bool)

  function ValidatePasswordStrength(pw: string): (s: Strength)
    ensures s.score <= 4
    ensures s.score == if MetCount(pw) < 4 then MetCount(pw) else 4
    ensures forall r :: r in s.feedback <==> !Meets(pw, r)
    ensures forall i, j :: 0 <= i < j < |s.feedback| ==> Rank(s.feedback[i]) < Rank(s.feedback[j])
    ensures |s.feedback| == 5 - MetCount(pw)
    ensures s.isValid <==> Text.Utf16Length(pw) >= 8 && MetCount(pw) >= 4
  {
    var met := MetCount(pw);
    var score := if met < 4 then met else 4;
    var isStrong := score >= 4 && Meets(pw, MinLength);
    assert forall r :: r in RequirementOrder by {
      forall r ensures r in RequirementOrder {
        assert RequirementOrder[Rank(r)] == r;
      }
    }
    UnmetKeepsOrder(pw, RequirementOrder);
    Strength(score, Unmet(pw, RequirementOrder), isStrong)
  }

  /**
   * A password is accepted exactly when it is at least 8 UTF-16 code units long and
   * at least three of the four character classes.
   */
  lemma ValidMeansLongWithThreeClasses(pw: string)
    ensures ValidatePasswordStrength(pw).isValid <==>
      Text.Utf16Length(pw) >= 8 && B2N(HasUpper(pw)) + B2N(HasLower(pw)) + B2N(HasDigit(pw)) + B2N(HasSpecial(pw)) >= 3
  {
    MetCountUnfolded(pw);
  }

  /** No feedback means every requirement is met, and then the password is valid. */
  lemma {:induction false} NoFeedbackMeansValid(pw: string)
    ensures ValidatePasswordStrength(pw).feedback == [] <==> forall r :: Meets(pw, r)
    ensures ValidatePasswordStrength(pw).feedback == [] ==> ValidatePasswordStrength(pw).isValid
  {
    var s := ValidatePasswordStrength(pw);
    if s.feedback == [] {
      assert MetCount(pw) == 5;
    } else {
      assert s.feedback[0] in s.feedback;
    }
  }

  lemma ExampleScores()
    ensures ValidatePasswordStrength("Abcdefg1").isValid
    ensures !ValidatePasswordStrength("abc").isValid
  {
    assert HasUpper("Abcdefg1") by { assert IsUpper("Abcdefg1"[0]); }
    assert HasLower("Abcdefg1") by { assert IsLower("Abcdefg1"[1]); }
    assert HasDigit("Abcdefg1") by { assert Text.IsDigit("Abcdefg1"[7]); }
    Text.Utf16LengthOfBmp("Abcdefg1");
    ValidMeansLongWithThreeClasses("Abcdefg1");
    ValidMeansLongWithThreeClasses("abc");
  }

  const AstralExample: string := "Aa1!Aa\U{1F600}"

  lemma AstralExampleLength()
    ensures |AstralExample| == 7 && Text.Utf16Length(AstralExample) == 8
  {
    assert AstralExample == "Aa1!Aa" + ['\U{1F600}'];
    Text.Utf16LengthOfBmp("Aa1!Aa");
    Text.Utf16LengthAppend("Aa1!Aa", ['\U{1F600}']);
    assert Text.Utf16Length(['\U{1F600}']) == 2 by {
      assert ['\U{1F600}'][1..] == [];
    }
  }

  lemma AstralExampleClasses()
    ensures HasUpper(AstralExample) && HasLower(AstralExample) && HasDigit(AstralExample) && HasSpecial(AstralExample)
  {
    var pw := AstralExample;
    assert IsUpper(pw[0]) && IsLower(pw[1]) && Text.IsDigit(pw[2]) && IsSpecial(pw[3]);
  }

  /**
   * Seven characters, the last outside the Basic Multilingual Plane, are eight
   * code units long: the length rule is met and the password is valid.
   */
  lemma AstralCharacterCountsTwice()
    ensures |AstralExample| == 7
    ensures ValidatePasswordStrength(AstralExample).isValid
    ensures ValidatePasswordStrength(AstralExample).feedback == []
  {
    AstralExampleLength();
    AstralExampleClasses();
    MetCountUnfolded(AstralExample);
  }
}
