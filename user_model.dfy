/** The User schema's field rules (email, password, phone, role), the
    unique phone index, and the reset-token expiry set by
    `getResetPasswordToken`. */
module UserModel {
  import opened Common
  import opened Text
  import opened Time

  datatype Role = Customer | Staff | Inventory | Admin

  /** The requester as the authentication middleware attaches it. */
  datatype Caller = Caller(id: Id, role: Role)

  datatype User = User(
    email: Option<string>,
    password: string,
    fullName: string,
    phone: string,
    role: Role,
    isActive: bool)

  /** `^[0-9]{10}$`: exactly ten ASCII digits. */
  predicate ValidPhone(p: string) {
    |p| == 10 && forall i :: 0 <= i < |p| ==> IsDigit(p[i])
  }

  predicate IsSeparator(c: char) {
    c == '.' || c == '-'
  }

  /** `\w+([.-]?\w+)*`: runs of word characters joined by single `.` or `-`. */
  predicate IsWords(s: string) {
    && |s| > 0 && IsWordChar(s[0]) && IsWordChar(s[|s| - 1])
    && (forall i :: 0 <= i < |s| ==> IsWordChar(s[i]) || IsSeparator(s[i]))
    && (forall i :: 0 <= i < |s| - 1 ==> IsWordChar(s[i]) || IsWordChar(s[i + 1]))
  }

  /** `\w{2,3}`. */
  predicate IsTopLevel(t: string) {
    2 <= |t| <= 3 && forall i :: 0 <= i < |t| ==> IsWordChar(t[i])
  }

  /** `\w+([.-]?\w+)*(\.\w{2,3})+`: word runs whose last run follows a dot
      and has two or three characters. */
  predicate IsDomain(d: string) {
    exists k :: 0 <= k < |d| && d[k] == '.' && IsWords(d[..k]) && IsTopLevel(d[k + 1..])
  }

  /** The whole email pattern, anchored at both ends. */
  predicate MatchesEmailPattern(e: string)
    ensures MatchesEmailPattern(e) ==> |e| >= 6 && IsWordChar(e[0]) && IsWordChar(e[|e| - 1])
  {
    exists k :: 0 <= k < |e| && e[k] == '@' && IsWords(e[..k]) && IsDomain(e[k + 1..])
  }

  /** The email setters: trimmed, then lower-cased. */
  function NormalizeEmail(raw: string): string {
    Lower(Trim(raw))
  }

  /** The email field's rule on its stored value: it is optional, and an
      empty value is not matched against the pattern. */
  predicate ValidEmail(stored: Option<string>) {
    stored.None? || stored.value == "" || MatchesEmailPattern(stored.value)
  }

  /** Lower-casing keeps white space and everything else apart. */
  lemma LowerCharKeepsSpaces(c: char)
    ensures IsJsSpace(LowerChar(c)) <==> IsJsSpace(c)
  {
  }

  /** Lower-casing a lower-cased string changes nothing. */
  lemma LowerIdempotent(s: string)
    ensures Lower(Lower(s)) == Lower(s)
  {
    assert forall i :: 0 <= i < |s| ==> Lower(Lower(s))[i] == Lower(s)[i];
  }

  /** Lower-casing keeps a trimmed string trimmed. */
  lemma LowerKeepsTrimmed(s: string)
    requires IsTrimmed(s)
    ensures IsTrimmed(Lower(s))
  {
    if s != [] {
      LowerCharKeepsSpaces(s[0]);
      LowerCharKeepsSpaces(s[|s| - 1]);
    }
  }

  /** Normalizing a stored email again changes nothing. */
  lemma NormalizeEmailIdempotent(raw: string)
    ensures NormalizeEmail(NormalizeEmail(raw)) == NormalizeEmail(raw)
  {
    var t := Trim(raw);
    assert IsTrimmed(t);
    LowerKeepsTrimmed(t);
    TrimmedIffFixed(Lower(t));
    LowerIdempotent(t);
  }

  /** A local part, a host and a two- or three-letter top-level label
      always make a matching address. */
  lemma EmailFromParts(local: string, host: string, tld: string)
    requires IsWords(local) && IsWords(host) && IsTopLevel(tld)
    ensures MatchesEmailPattern(local + "@" + host + "." + tld)
  {
    var d := host + "." + tld;
    assert d[|host|] == '.' && d[..|host|] == host && d[|host| + 1..] == tld;
    assert IsDomain(d);
    var e := local + "@" + host + "." + tld;
    assert e == local + "@" + d;
    assert e[|local|] == '@' && e[..|local|] == local && e[|local| + 1..] == d;
  }

  /** Word runs never hold an `@`. */
  lemma WordsHaveNoAt(s: string)
    requires IsWords(s)
    ensures '@' !in s
  {
  }

  /** A domain never holds an `@`. */
  lemma DomainHasNoAt(d: string)
    requires IsDomain(d)
    ensures '@' !in d
  {
    var m :| 0 <= m < |d| && d[m] == '.' && IsWords(d[..m]) && IsTopLevel(d[m + 1..]);
    WordsHaveNoAt(d[..m]);
    assert d == d[..m] + [d[m]] + d[m + 1..];
  }

  /** An `@` with none before it and none after it is the only one. */
  lemma OnlyAt(e: string, k: nat)
    requires k < |e| && e[k] == '@' && '@' !in e[..k] && '@' !in e[k + 1..]
    ensures multiset(e)['@'] == 1
  {
    assert e == e[..k] + [e[k]] + e[k + 1..];
    assert multiset(e) == multiset(e[..k]) + multiset{e[k]} + multiset(e[k + 1..]);
  }

  /** A matching address holds exactly one `@`. */
  lemma EmailHasOneAt(e: string)
    requires MatchesEmailPattern(e)
    ensures multiset(e)['@'] == 1
  {
    var k :| 0 <= k < |e| && e[k] == '@' && IsWords(e[..k]) && IsDomain(e[k + 1..]);
    WordsHaveNoAt(e[..k]);
    DomainHasNoAt(e[k + 1..]);
    OnlyAt(e, k);
  }

  /** `password`: required and at least six characters long. */
  predicate ValidPassword(p: Option<string>) {
    p.Some? && |p.value| >= 6
  }

  /** What the schema lets a user be saved with. */
  predicate ValidUser(u: User) {
    ValidEmail(u.email) && |u.password| >= 6 && u.fullName != "" && ValidPhone(u.phone)
  }

  /** Creating a user document: the email goes through its setters, a
      left-out role defaults to customer, isActive to true; then the
      schema's rules are checked. */
  function NewUser(email: Option<string>, password: Option<string>, fullName: string,
                   phone: string, role: Choice<Role>): (r: Result<User>)
    ensures r.Ok? <==> && ValidEmail(if email.Some? then Some(NormalizeEmail(email.value)) else None)
                       && ValidPassword(password) && fullName != "" && ValidPhone(phone)
                       && !role.Unknown?
    ensures r.Ok? ==> && ValidUser(r.value) && r.value.isActive
                      && r.value.role == (if role.Chosen? then role.value else Customer)
                      && r.value.phone == phone
    ensures r.Ok? ==> && r.value.email == (if email.Some? then Some(NormalizeEmail(email.value)) else None)
                      && r.value.password == password.value && r.value.fullName == fullName
  {
    if role.Unknown? || password.None? then Err(SchemaViolation)
    else
      var u := User(if email.Some? then Some(NormalizeEmail(email.value)) else None,
                    password.value, fullName, phone,
                    if role.Chosen? then role.value else Customer, true);
      if ValidUser(u) then Ok(u) else Err(SchemaViolation)
  }

  /** No two stored users share a phone number. */
  ghost predicate UniquePhones(users: map<Id, User>) {
    forall a, b :: a in users && b in users && a != b ==> users[a].phone != users[b].phone
  }

  /** Inserting a user: refused when invalid or when the unique phone index
      already holds the number. */
  function InsertUser(users: map<Id, User>, id: Id, u: User): (r: Result<map<Id, User>>)
    requires id !in users
    ensures r.Ok? <==> ValidUser(u) && forall other :: other in users ==> users[other].phone != u.phone
    ensures r.Ok? ==> r.value == users[id := u]
    ensures r.Ok? && UniquePhones(users) ==> UniquePhones(r.value)
  {
    if ValidUser(u) && forall other :: other in users ==> users[other].phone != u.phone
    then Ok(users[id := u]) else Err(SchemaViolation)
  }

  /** How long a reset token stays usable: thirty minutes. */
  const ResetWindowMs: int := 30 * MinuteMs

  /** A user document as a request handler holds it while it changes it. */
  class UserDocument {
    var user: User
    var resetPasswordToken: Option<string>
    var resetPasswordExpire: Option<Millis>

    constructor (u: User)
      ensures user == u && resetPasswordToken == None && resetPasswordExpire == None
    {
      user := u;
      resetPasswordToken := None;
      resetPasswordExpire := None;
    }

    /** `getResetPasswordToken`: the random token and its SHA-256 digest are
        supplied by the caller; the digest is stored, the raw token returned,
        and the expiry set thirty minutes (1,800,000 ms) after `now`. */
    method GetResetPasswordToken(now: Millis, randomHex: string, sha256Hex: string -> string)
      returns (resetToken: string)
      modifies this`resetPasswordToken, this`resetPasswordExpire
      ensures resetToken == randomHex
      ensures resetPasswordToken == Some(sha256Hex(randomHex))
      ensures resetPasswordExpire == Some(now + 1800000)
    {
      resetToken := randomHex;
      resetPasswordToken := Some(sha256Hex(randomHex));
      resetPasswordExpire := Some(now + ResetWindowMs);
    }
  }
}
