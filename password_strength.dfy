/**
 * The password-strength meter shown on the registration and reset forms:
 * a count of satisfied criteria from 0 to 5, mapped to a label and colour.
 */
module PasswordStrength {
  import opened Wrappers

  datatype Label = Weak | Fair | Good | Strong

  /** `label` is a reserved word in Dafny, so the label is called `rating`. */
  datatype Strength = Strength(score: nat, rating: Label, color: string)

  predicate IsUpper(c: char) { 'A' <= c <= 'Z' }
  predicate IsLower(c: char) { 'a' <= c <= 'z' }
  predicate IsDigit(c: char) { '0' <= c <= '9' }
  predicate IsAlphanumeric(c: char) { IsUpper(c) || IsLower(c) || IsDigit(c) }

  /** `/[A-Z]/.test(password)` */
  predicate HasUpper(s: string) { exists i | 0 <= i < |s| :: IsUpper(s[i]) }
  /** `/[0-9]/.test(password)` */
  predicate HasDigit(s: string) { exists i | 0 <= i < |s| :: IsDigit(s[i]) }
  /** `/[^A-Za-z0-9]/.test(password)` */
  predicate HasSymbol(s: string) { exists i | 0 <= i < |s| :: !IsAlphanumeric(s[i]) }

  function Indicator(b: bool): (n: nat)
    ensures n <= 1 && (n == 1 <==> b)
  {
    if b then 1 else 0
  }

  /** One point per satisfied criterion. */
  function Score(password: string): (n: nat)
    ensures n <= 5
    ensures n == 0 <==> |password| < 8 && !HasUpper(password) && !HasDigit(password) && !HasSymbol(password)
    ensures n == 5 <==> |password| >= 12 && HasUpper(password) && HasDigit(password) && HasSymbol(password)
  {
    Indicator(|password| >= 8) + Indicator(|password| >= 12)
    + Indicator(HasUpper(password)) + Indicator(HasDigit(password)) + Indicator(HasSymbol(password))
  }

  /** `getStrength`: the score and the label and colour of its band. */
  function GetStrength(password: string): (r: Strength)
    ensures r.score == Score(password) && r.score <= 5
    ensures r.rating == Weak <==> r.score <= 1
    ensures r.rating == Fair <==> r.score == 2
    ensures r.rating == Good <==> r.score == 3
    ensures r.rating == Strong <==> r.score >= 4
    ensures r.rating == Weak ==> r.color == "#e74c3c"
    ensures r.rating == Fair ==> r.color == "#f39c12"
    ensures r.rating == Good ==> r.color == "#3498db"
    ensures r.rating == Strong ==> r.color == "#27ae60"
  {
    var score := Score(password);
    if score <= 1 then Strength(score, Weak, "#e74c3c")
    else if score <= 2 then Strength(score, Fair, "#f39c12")
    else if score <= 3 then Strength(score, Good, "#3498db")
    else Strength(score, Strong, "#27ae60")
  }

  /** The component: nothing for an empty password, the strength otherwise. */
  function Render(password: string): (r: Option<Strength>)
    ensures r.None? <==> password == []
    ensures r.Some? ==> r.value == GetStrength(password)
  {
    if password == [] then None else Some(GetStrength(password))
  }

  /** Appending characters never lowers the score: every criterion stays satisfied. */
  lemma AppendNeverLowers(p: string, q: string)
    ensures Score(p) <= Score(p + q)
  {
    if HasUpper(p) {
      var i :| 0 <= i < |p| && IsUpper(p[i]);
      assert (p + q)[i] == p[i];
    }
    if HasDigit(p) {
      var i :| 0 <= i < |p| && IsDigit(p[i]);
      assert (p + q)[i] == p[i];
    }
    if HasSymbol(p) {
      var i :| 0 <= i < |p| && !IsAlphanumeric(p[i]);
      assert (p + q)[i] == p[i];
    }
  }

  /** Twelve characters or more always rate at least Fair. */
  lemma LongIsAtLeastFair(password: string)
    requires |password| >= 12
    ensures Score(password) >= 2 && GetStrength(password).rating != Weak
  {
  }

  /** A lowercase-only password of 8 to 11 characters scores exactly 1: Weak. */
  lemma ShortLowercaseIsWeak(password: string)
    requires 8 <= |password| <= 11
    requires forall i | 0 <= i < |password| :: IsLower(password[i])
    ensures Score(password) == 1 && GetStrength(password).rating == Weak
  {
    assert !HasUpper(password) && !HasDigit(password);
    assert !HasSymbol(password);
  }
}
