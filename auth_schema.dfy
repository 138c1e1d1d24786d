/** The sign-up and sign-in form rules: the password policy and the field
    checks, each failing check reporting its own message in schema order. */
module AuthSchema {
  import opened Common

  predicate IsUpper(c: char) { 'A' <= c <= 'Z' }
  predicate IsLower(c: char) { 'a' <= c <= 'z' }
  predicate IsDigit(c: char) { '0' <= c <= '9' }

  /** `[^A-Za-z0-9]`: any character that is not an ASCII letter or digit. */
  predicate IsSpecial(c: char) { !IsUpper(c) && !IsLower(c) && !IsDigit(c) }

  predicate HasUpper(s: string) { exists i :: 0 <= i < |s| && IsUpper(s[i]) }
  predicate HasLower(s: string) { exists i :: 0 <= i < |s| && IsLower(s[i]) }
  predicate HasDigit(s: string) { exists i :: 0 <= i < |s| && IsDigit(s[i]) }
  predicate HasSpecial(s: string) { exists i :: 0 <= i < |s| && IsSpecial(s[i]) }

  const TooShort := "Password must be at least 8 characters"
  const NoUpper := "Password must contain at least one uppercase letter"
  const NoLower := "Password must contain at least one lowercase letter"
  const NoDigit := "Password must contain at least one number"
  const NoSpecial := "Password must contain at least one special character"

  /** `passwordSchema`: every failing check reports its message, in order. */
  function PasswordIssues(p: string): seq<string> {
    (if Utf16Length(p) >= 8 then [] else [TooShort]) +
    (if HasUpper(p) then [] else [NoUpper]) +
    (if HasLower(p) then [] else [NoLower]) +
    (if HasDigit(p) then [] else [NoDigit]) +
    (if HasSpecial(p) then [] else [NoSpecial])
  }

  /** A password is accepted iff it is at least 8 UTF-16 code units long and
      has an uppercase letter, a lowercase letter, a digit and a special
      character; each rule it breaks is reported. */
  lemma PasswordIssuesMeaning(p: string)
    ensures PasswordIssues(p) == [] <==>
      Utf16Length(p) >= 8 && HasUpper(p) && HasLower(p) && HasDigit(p) && HasSpecial(p)
    ensures TooShort in PasswordIssues(p) <==> Utf16Length(p) < 8
    ensures NoUpper in PasswordIssues(p) <==> !HasUpper(p)
    ensures NoLower in PasswordIssues(p) <==> !HasLower(p)
    ensures NoDigit in PasswordIssues(p) <==> !HasDigit(p)
    ensures NoSpecial in PasswordIssues(p) <==> !HasSpecial(p)
  {
    var parts := [
      (if Utf16Length(p) >= 8 then [] else [TooShort]),
      (if HasUpper(p) then [] else [NoUpper]),
      (if HasLower(p) then [] else [NoLower]),
      (if HasDigit(p) then [] else [NoDigit]),
      (if HasSpecial(p) then [] else [NoSpecial])];
    assert PasswordIssues(p) == parts[0] + parts[1] + parts[2] + parts[3] + parts[4];
  }

  /** A password with every other quality but no special character is refused
      for that reason alone. */
  lemma NoSpecialCharacter()
    ensures PasswordIssues("Password1") == [NoSpecial]
  {
    var p := "Password1";
    assert IsUpper(p[0]) && IsLower(p[1]) && IsDigit(p[8]);
    assert forall i :: 0 <= i < |p| ==> !IsSpecial(p[i]);
  }

  /** The seeded administrator's password meets the policy. */
  lemma AdminPasswordAccepted()
    ensures PasswordIssues("Admin@123") == []
  {
    var p := "Admin@123";
    assert IsUpper(p[0]) && IsLower(p[1]) && IsDigit(p[6]) && IsSpecial(p[5]);
  }

  /** Length is JavaScript's: a password of six characters, two of them
      outside the Basic Multilingual Plane, is 8 code units long and accepted. */
  lemma AstralPasswordAccepted()
    ensures PasswordIssues("Aa1!\U{1F600}\U{1F600}") == []
  {
    var p := "Aa1!\U{1F600}\U{1F600}";
    assert |p| == 6 && Utf16Length(p) == 8;
    assert IsUpper(p[0]) && IsLower(p[1]) && IsDigit(p[2]) && IsSpecial(p[3]);
  }

  /** The sign-up form as typed. */
  datatype AuthForm = AuthForm(
    email: string,
    password: string,
    name: Option<string>,
    phone: Option<string>,
    isAdmin: Option<bool>)

  /** `authValidationSchema`; the e-mail format check is a parameter. */
  function AuthIssues(f: AuthForm, isEmail: string -> bool): seq<string> {
    (if isEmail(f.email) then [] else ["Invalid email address"]) +
    PasswordIssues(f.password) +
    (if f.name.None? || Utf16Length(f.name.value) >= 2 then [] else ["Name must be at least 2 characters"]) +
    (if f.phone.None? || Utf16Length(f.phone.value) >= 10 then [] else ["Invalid phone number"])
  }

  /** The form passes iff the e-mail is well formed, the password meets the
      policy, and a name (2 UTF-16 code units) or phone (10), when given, is
      long enough; both may be left out. */
  lemma AuthIssuesMeaning(f: AuthForm, isEmail: string -> bool)
    ensures AuthIssues(f, isEmail) == [] <==>
      && isEmail(f.email)
      && PasswordIssues(f.password) == []
      && (f.name.Some? ==> Utf16Length(f.name.value) >= 2)
      && (f.phone.Some? ==> Utf16Length(f.phone.value) >= 10)
  {
    var a := if isEmail(f.email) then [] else ["Invalid email address"];
    var b := PasswordIssues(f.password);
    var c := if f.name.None? || Utf16Length(f.name.value) >= 2 then [] else ["Name must be at least 2 characters"];
    var d := if f.phone.None? || Utf16Length(f.phone.value) >= 10 then [] else ["Invalid phone number"];
    assert AuthIssues(f, isEmail) == a + b + c + d;
    assert |a + b + c + d| == |a| + |b| + |c| + |d|;
  }
}
