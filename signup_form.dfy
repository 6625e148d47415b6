/**
 * The client-side signup form's validation schema and its submit handler. The
 * password rule is a regular expression made of lookaheads; it is written here
 * as JavaScript evaluates it and, separately, as the policy it enforces.
 */
module SignupForm {
  import opened Wrappers

  /** The form's three fields. */
  datatype FormValues = FormValues(username: string, password: string, confirmPassword: string)

  /** The body posted to `/signup`. */
  datatype SignupBody = SignupBody(username: string, password: string)

  predicate IsLower(c: char) { 'a' <= c <= 'z' }
  predicate IsUpper(c: char) { 'A' <= c <= 'Z' }
  predicate IsDigit(c: char) { '0' <= c <= '9' }

  /** The special characters the password accepts. */
  const Specials: string := "@#$%^&+!="

  predicate IsSpecial(c: char) { c in Specials }

  /** The character class `[A-Za-z0-9@#$%^&+!=]`. */
  predicate IsAllowed(c: char)
  {
    IsLower(c) || IsUpper(c) || IsDigit(c) || IsSpecial(c)
  }

  /** The characters `.` does not match in a JavaScript pattern without the `s` flag. */
  predicate IsLineTerminator(c: char)
  {
    c == '\n' || c == '\r' || c == '\U{2028}' || c == '\U{2029}'
  }

  // ---------------------------------------------------------------------------
  // The pattern, piece by piece, anchored at the start of the input
  // ---------------------------------------------------------------------------

  /** `(?=[A-Za-z0-9@#$%^&+!=]+$)`: one or more allowed characters up to the end. */
  predicate AllowedToEnd(p: string)
  {
    |p| >= 1 && forall i :: 0 <= i < |p| ==> IsAllowed(p[i])
  }

  /** `(?=.*[x])`: some character of class `x`, reached without crossing a line terminator. */
  predicate LookaheadFinds(p: string, x: char -> bool)
  {
    exists k :: 0 <= k < |p| && x(p[k]) && forall j :: 0 <= j < k ==> !IsLineTerminator(p[j])
  }

  /** `(?=.{8,})`: eight characters, none a line terminator. */
  predicate AtLeastEightDots(p: string)
  {
    |p| >= 8 && forall j :: 0 <= j < 8 ==> !IsLineTerminator(p[j])
  }

  /** `.*$`: the rest of the input holds no line terminator. */
  predicate DotsToEnd(p: string)
  {
    forall j :: 0 <= j < |p| ==> !IsLineTerminator(p[j])
  }

  /**
   * `/^(?=[A-Za-z0-9@#$%^&+!=]+$)^(?=.*[a-z])(?=.*[A-Z])(?=.*[0-9])(?=.*[@#$%^&+!=])(?=.{8,}).*$/`
   * tested against `p`: every lookahead and the final `.*$` start at position 0.
   */
  predicate PatternMatches(p: string)
    ensures PatternMatches(p) ==> |p| >= 8 && forall i :: 0 <= i < |p| ==> IsAllowed(p[i])
  {
    && AllowedToEnd(p)
    && LookaheadFinds(p, IsLower)
    && LookaheadFinds(p, IsUpper)
    && LookaheadFinds(p, IsDigit)
    && LookaheadFinds(p, IsSpecial)
    && AtLeastEightDots(p)
    && DotsToEnd(p)
  }

  // ---------------------------------------------------------------------------
  // The policy the pattern stands for
  // ---------------------------------------------------------------------------

  predicate Contains(p: string, x: char -> bool)
  {
    exists k :: 0 <= k < |p| && x(p[k])
  }

  /**
   * At least eight characters, all from the allowed set, with a lower-case letter,
   * an upper-case letter, a digit and a special character among them.
   */
  predicate PasswordPolicy(p: string)
  {
    && |p| >= 8
    && (forall i :: 0 <= i < |p| ==> IsAllowed(p[i]))
    && Contains(p, IsLower) && Contains(p, IsUpper) && Contains(p, IsDigit) && Contains(p, IsSpecial)
  }

  lemma LookaheadFindsIffContains(p: string, x: char -> bool)
    requires forall i :: 0 <= i < |p| ==> IsAllowed(p[i])
    ensures LookaheadFinds(p, x) <==> Contains(p, x)
  {
    if Contains(p, x) {
      var k :| 0 <= k < |p| && x(p[k]);
      assert forall j :: 0 <= j < k ==> IsAllowed(p[j]) && !IsLineTerminator(p[j]);
    }
  }

  /** The regular expression accepts exactly the passwords that meet the policy. */
  lemma PatternIsPolicy(p: string)
    ensures PatternMatches(p) <==> PasswordPolicy(p)
  {
    if forall i :: 0 <= i < |p| ==> IsAllowed(p[i]) {
      LookaheadFindsIffContains(p, IsLower);
      LookaheadFindsIffContains(p, IsUpper);
      LookaheadFindsIffContains(p, IsDigit);
      LookaheadFindsIffContains(p, IsSpecial);
      assert forall j :: 0 <= j < |p| ==> !IsLineTerminator(p[j]);
    }
  }

  // ---------------------------------------------------------------------------
  // The Yup schema
  // ---------------------------------------------------------------------------

  /** `Yup.string().required()`: a string field must not be empty. */
  predicate Required(s: string) { s != "" }

  /** `username: string().required()`. */
  predicate UsernameValid(username: string)
  {
    Required(username)
  }

  /**
   * `password: string().required().min(8).matches(pattern)`. It accepts exactly
   * the passwords meeting the policy: `required()` and `min(8)` add nothing to
   * what the pattern demands.
   */
  predicate PasswordValid(password: string)
    ensures PasswordValid(password) <==> PasswordPolicy(password)
  {
    PatternIsPolicy(password);
    Required(password) && |password| >= 8 && PatternMatches(password)
  }

  /** `confirmPassword: string().required().oneOf([ref('password')])`. */
  predicate ConfirmPasswordValid(confirmPassword: string, password: string)
  {
    Required(confirmPassword) && confirmPassword == password
  }

  /**
   * The whole schema: a non-empty username, a password meeting the policy, and
   * a confirmation equal to the password.
   */
  predicate FormValid(f: FormValues)
    ensures FormValid(f) <==>
      f.username != "" && PasswordPolicy(f.password) && f.confirmPassword == f.password
  {
    UsernameValid(f.username) && PasswordValid(f.password) && ConfirmPasswordValid(f.confirmPassword, f.password)
  }

  /**
   * Formik calls `onSubmit` only for valid values, and the handler posts the
   * username and password alone; the confirmation is dropped.
   */
  function Submit(f: FormValues): (r: Option<SignupBody>)
    ensures r.Some? <==> FormValid(f)
    ensures r.Some? ==> r.value.username == f.username && r.value.password == f.password
    ensures r.Some? ==> r.value.username != "" && r.value.password == f.confirmPassword
    ensures r.Some? ==> PasswordPolicy(r.value.password)
  {
    if FormValid(f) then
      Some(SignupBody(f.username, f.password))
    else None
  }

  /** A password meeting every rule passes. */
  lemma AcceptedExample()
    ensures PasswordValid("Passw0rd!")
  {
    var p := "Passw0rd!";
    assert IsUpper(p[0]) && IsLower(p[1]) && IsDigit(p[5]) && IsSpecial(p[8]);
    assert forall i :: 0 <= i < |p| ==> IsAllowed(p[i]);
  }

  /** Without an upper-case letter a password fails. */
  lemma NoUpperExample()
    ensures !PasswordValid("passw0rd!")
  {
    var p := "passw0rd!";
    assert forall i :: 0 <= i < |p| ==> !IsUpper(p[i]);
  }

  /** A space is outside the allowed set. */
  lemma SpaceExample()
    ensures !PasswordValid("Pass w0rd!")
  {
    var p := "Pass w0rd!";
    assert !IsAllowed(p[4]);
  }

  /** Seven characters are too few, whatever they are. */
  lemma ShortExample()
    ensures !PasswordValid("Pa$$w0r")
  {
  }
}
