/** The User schema: its fields, the setters applied to the email, the role
    enumeration with its default, and the validators a record must pass
    before the store accepts it. */
module UserModel {
  import opened Common
  import opened Text

  datatype Role = Admin | RegularUser

  /** The stored spelling of a role. */
  function RoleName(r: Role): string {
    match r
    case Admin => "admin"
    case RegularUser => "user"
  }

  /** The `role` field's rules: absent means the default `user`; otherwise
      only the two enumerated names are accepted. */
  function ParseRole(s: Option<string>): (r: Option<Role>)
    ensures s.None? ==> r == Some(RegularUser)
    ensures s.Some? ==> (r.Some? <==> s.value == "admin" || s.value == "user")
    ensures r.Some? && s.Some? ==> RoleName(r.value) == s.value
  {
    match s
    case None => Some(RegularUser)
    case Some(name) =>
      if name == "admin" then Some(Admin)
      else if name == "user" then Some(RegularUser)
      else None
  }

  datatype User = User(id: ObjectId, username: string, email: string, password: string, role: Role)

  /** No ASCII upper-case letter occurs in `s`. */
  predicate IsLower(s: string) {
    forall k :: 0 <= k < |s| ==> LowerChar(s[k]) == s[k]
  }

  /** What the email setters leave behind: lower case, nothing to trim. */
  predicate Normalised(s: string) {
    Trimmed(s) && IsLower(s)
  }

  /** The email setters: lower-case, then trim. */
  function NormaliseEmail(s: string): (r: string)
    ensures Normalised(r)
    ensures r == ToLower(Trim(s))
  {
    TrimToLowerCommute(s);
    var r := Trim(ToLower(s));
    LowerOfLower(Trim(s));
    r
  }

  lemma LowerOfLower(s: string)
    ensures IsLower(ToLower(s))
  {
    forall k | 0 <= k < |s| ensures LowerChar(ToLower(s)[k]) == ToLower(s)[k] {
      var c := s[k];
      assert ToLower(s)[k] == LowerChar(c);
    }
  }

  /** The normalised emails are exactly the fixed points of the setters. */
  lemma NormalisedIff(s: string)
    ensures Normalised(s) <==> NormaliseEmail(s) == s
  {
    if Normalised(s) {
      TrimNoop(s);
      assert ToLower(s) == s;
    }
  }

  /** Normalising an already normalised email changes nothing. */
  lemma NormaliseEmailIdempotent(s: string)
    ensures NormaliseEmail(NormaliseEmail(s)) == NormaliseEmail(s)
  {
    NormalisedIff(NormaliseEmail(s));
  }

  /** What the pattern `^\S+@\S+\.\S+$` accepts: no whitespace, an `@` with
      something before it, and a later `.` with something between the two
      and something after it. */
  ghost predicate MatchesEmailPattern(s: string) {
    NoSpace(s) && exists i, j :: 1 <= i && i + 2 <= j && j + 2 <= |s| && s[i] == '@' && s[j] == '.'
  }

  /** First index `>= from` holding an `@`, or `|s|`. */
  function FirstAt(s: string, from: nat): (i: nat)
    requires from <= |s|
    ensures from <= i <= |s| && (i < |s| ==> s[i] == '@')
    ensures forall k :: from <= k < i ==> s[k] != '@'
    decreases |s| - from
  {
    if from == |s| || s[from] == '@' then from else FirstAt(s, from + 1)
  }

  /** Last index `< before` holding a `.`, or -1. */
  function LastDot(s: string, before: nat): (j: int)
    requires before <= |s|
    ensures -1 <= j < before && (j >= 0 ==> s[j] == '.')
    ensures forall k :: j < k < before ==> s[k] != '.'
  {
    if before == 0 then -1
    else if s[before - 1] == '.' then before - 1
    else LastDot(s, before - 1)
  }

  /** The email match validator, as a left-to-right check: the earliest usable
      `@` must come at least two places before the latest usable `.`. */
  function IsEmail(s: string): bool {
    |s| >= 1 && NoSpace(s) &&
    var i := FirstAt(s, 1);
    var j := LastDot(s, |s| - 1);
    i < |s| && i + 2 <= j
  }

  /** The check accepts exactly the strings the pattern matches. */
  lemma EmailCheckIsPattern(s: string)
    ensures IsEmail(s) <==> MatchesEmailPattern(s)
  {
    if IsEmail(s) {
      var i := FirstAt(s, 1);
      var j := LastDot(s, |s| - 1);
      assert 1 <= i && i + 2 <= j && j + 2 <= |s| && s[i] == '@' && s[j] == '.';
    }
    if MatchesEmailPattern(s) {
      var i, j :| 1 <= i && i + 2 <= j && j + 2 <= |s| && s[i] == '@' && s[j] == '.';
      assert FirstAt(s, 1) <= i;
      assert LastDot(s, |s| - 1) >= j;
    }
  }

  /** A record the schema's validators accept, after its setters ran. */
  predicate UserValid(u: User) {
    && u.username != ""
    && u.email != "" && Normalised(u.email) && IsEmail(u.email)
    && u.password != "" && |u.password| >= 6
  }

  /** `new User({...})` followed by validation: the setters normalise the
      email, the role takes its default, and the record is refused when a
      required field is empty, the email does not match, the password is
      shorter than 6 or the role is not one of the two names. */
  function NewUser(id: ObjectId, username: string, email: string, password: string, role: Option<string>): (r: Option<User>)
    ensures r.Some? <==>
      username != "" && IsEmail(NormaliseEmail(email)) && |password| >= 6 && ParseRole(role).Some?
    ensures r.Some? ==> UserValid(r.value)
    ensures r.Some? ==> r.value.id == id && r.value.username == username && r.value.password == password
    ensures r.Some? ==> r.value.email == NormaliseEmail(email) && Some(r.value.role) == ParseRole(role)
  {
    var e := NormaliseEmail(email);
    if username != "" && IsEmail(e) && |password| >= 6 && ParseRole(role).Some? then
      Some(User(id, username, e, password, ParseRole(role).value))
    else
      None
  }
}
