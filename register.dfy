/** The registration page: the password-strength meter and how the page reads
    the signup response. */
module Register {
  import opened Common
  import opened Http
  import opened AuthController
  import opened ApiClient

  /** The meter's `{ label, level }`. */
  datatype Strength = Strength(text: string, level: nat)

  predicate IsUpper(c: char) { 'A' <= c <= 'Z' }
  predicate IsDigit(c: char) { '0' <= c <= '9' }
  predicate IsAlphanumeric(c: char) { 'a' <= c <= 'z' || IsUpper(c) || IsDigit(c) }

  /** `/[A-Z]/.test(pwd)` and the like: some character of `s` satisfies `p`. */
  predicate HasSome(s: string, p: char -> bool) {
    exists k :: 0 <= k < |s| && p(s[k])
  }

  /** How many of upper case, digit and other-than-alphanumeric occur. */
  function Score(pwd: string): (n: nat)
    ensures n <= 3
  {
    (if HasSome(pwd, IsUpper) then 1 else 0)
    + (if HasSome(pwd, IsDigit) then 1 else 0)
    + (if HasSome(pwd, c => !IsAlphanumeric(c)) then 1 else 0)
  }

  /** `getPasswordStrength`. */
  function PasswordStrength(pwd: string): (s: Strength)
    ensures pwd == "" <==> s == Strength("", 0)
    ensures 0 < |pwd| < 4 ==> s == Strength("Too short", 1)
    ensures 4 <= |pwd| < 6 ==> s == Strength("Weak", 1)
    ensures 6 <= |pwd| < 8 ==> s == Strength("Fair", 2)
    ensures |pwd| >= 8 ==> s == (if Score(pwd) >= 2 then Strength("Strong", 3) else Strength("Good", 2))
    ensures s.level <= 3
    ensures s.level == 3 ==> |pwd| >= 8
  {
    if pwd == "" then Strength("", 0)
    else if |pwd| < 4 then Strength("Too short", 1)
    else if |pwd| < 6 then Strength("Weak", 1)
    else if |pwd| < 8 then Strength("Fair", 2)
    else if Score(pwd) >= 2 && |pwd| >= 8 then Strength("Strong", 3)
    else Strength("Good", 2)
  }

  /** Typing one more character never lowers the meter. */
  lemma StrengthGrowsWithTyping(pwd: string, c: char)
    ensures PasswordStrength(pwd).level <= PasswordStrength(pwd + [c]).level
  {
    var longer := pwd + [c];
    if |pwd| >= 8 && Score(pwd) >= 2 {
      assert forall k :: 0 <= k < |pwd| ==> longer[k] == pwd[k];
      if HasSome(pwd, IsUpper) {
        var k :| 0 <= k < |pwd| && IsUpper(pwd[k]);
        assert IsUpper(longer[k]);
      }
      if HasSome(pwd, IsDigit) {
        var k :| 0 <= k < |pwd| && IsDigit(pwd[k]);
        assert IsDigit(longer[k]);
      }
      if HasSome(pwd, c => !IsAlphanumeric(c)) {
        var k :| 0 <= k < |pwd| && !IsAlphanumeric(pwd[k]);
        assert !IsAlphanumeric(longer[k]);
      }
    }
  }

  const StrengthWidths: seq<string> := ["0%", "33%", "66%", "100%"]

  /** The meter bar's width, indexed by the level; always in bounds. */
  function MeterWidth(pwd: string): (w: string)
    ensures PasswordStrength(pwd).level == 3 <==> w == "100%"
    ensures pwd == "" ==> w == "0%"
  {
    StrengthWidths[PasswordStrength(pwd).level]
  }

  /** What the page does with the signup answer. */
  datatype Outcome = GoToLogin | ShowError(message: string)

  /** `handleSubmit` after `api.signup`: any `message` means success; otherwise
      the body's error, or a fallback; a failed request has its own message. */
  function SignupOutcome(response: Option<Body>): (o: Outcome)
    ensures response.None? ==> o == ShowError("An error occurred during registration")
    ensures response.Some? ==> (o == GoToLogin <==> HasMessage(response.value))
    ensures o.ShowError? ==> o.message != ""
    ensures response.Some? && !HasMessage(response.value) ==>
      o == ShowError(ErrorOr(response.value, "Registration failed"))
  {
    match response
    case None => ShowError("An error occurred during registration")
    case Some(b) => if HasMessage(b) then GoToLogin else ShowError(ErrorOr(b, "Registration failed"))
  }

  /** Against the server's registration endpoint, the page moves on to the
      login page exactly when the account was created, and otherwise shows
      the server's error. */
  lemma SignupOutcomeMatchesServer(resp: Response)
    requires SignupShape(resp)
    ensures SignupOutcome(Some(resp.body)) == GoToLogin <==> resp.status == 201
    ensures resp.status != 201 ==> SignupOutcome(Some(resp.body)) == ShowError(resp.body.error)
  {
  }
}
