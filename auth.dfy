/**
 * Local accounts: the e-mail and password validators, the salted base64
 * password "hash", and the order in which signup and login check their
 * conditions against the stored users.
 *
 * The user store is a map from e-mail string to stored record plus a
 * current-user slot; a lookup uses the e-mail exactly as given and a save
 * files the record under its user's e-mail.
 */
module Auth {
  import opened Wrappers
  import opened Base64

  /** JavaScript's `\s`: the white-space and line-terminator code points. */
  predicate IsWhitespace(c: char)
  {
    var n := c as int;
    (9 <= n <= 13) || n == 0x20 || n == 0xA0 || n == 0x1680 || (0x2000 <= n <= 0x200A)
    || n == 0x2028 || n == 0x2029 || n == 0x202F || n == 0x205F || n == 0x3000 || n == 0xFEFF
  }

  /** The class `[^\s@]`. */
  predicate PartChar(c: char) { !IsWhitespace(c) && c != '@' }

  /** `[^\s@]+`: a non-empty run of part characters. */
  predicate IsPart(t: string) { |t| > 0 && forall k :: 0 <= k < |t| ==> PartChar(t[k]) }

  /** The regular expression `^[^\s@]+@[^\s@]+\.[^\s@]+$`, as a split of s into its pieces. */
  ghost predicate MatchesEmailPattern(s: string)
  {
    exists i, j :: 0 <= i < j < |s| && s[i] == '@' && s[j] == '.'
      && IsPart(s[..i]) && IsPart(s[i + 1..j]) && IsPart(s[j + 1..])
  }

  /** The first position of c in s. */
  function IndexOf(s: string, c: char): (r: Option<nat>)
    ensures r.Some? ==> r.value < |s| && s[r.value] == c && forall k :: 0 <= k < r.value ==> s[k] != c
    ensures r.None? ==> forall k :: 0 <= k < |s| ==> s[k] != c
  {
    if s == [] then None
    else if s[0] == c then Some(0)
    else match IndexOf(s[1..], c)
      case None => None
      case Some(k) => Some(k + 1)
  }

  /** A '.' strictly inside the domain, neither its first nor its last character. */
  predicate HasInnerDot(d: string) { exists j :: 1 <= j < |d| - 1 && d[j] == '.' }

  /** `validateEmail`: one '@' after a non-empty local part, and a dotted domain, with no white space. */
  function ValidateEmail(s: string): (r: bool)
    ensures r <==> exists i :: 0 <= i < |s| && s[i] == '@' && IsPart(s[..i]) && IsPart(s[i + 1..]) && HasInnerDot(s[i + 1..])
  {
    match IndexOf(s, '@')
    case None => false
    case Some(i) => IsPart(s[..i]) && IsPart(s[i + 1..]) && HasInnerDot(s[i + 1..])
  }

  /** Everything the validator accepts matches the regular expression. */
  lemma ValidEmailMatches(s: string)
    requires ValidateEmail(s)
    ensures MatchesEmailPattern(s)
  {
    var i := IndexOf(s, '@').value;
    var d := s[i + 1..];
    var jd :| 1 <= jd < |d| - 1 && d[jd] == '.';
    var j := i + 1 + jd;
    assert s[i + 1..j] == d[..jd];
    assert s[j + 1..] == d[jd + 1..];
    var local, top := d[..jd], d[jd + 1..];
    forall k | 0 <= k < |local| ensures PartChar(local[k]) {
      assert local[k] == d[k];
    }
    forall k | 0 <= k < |top| ensures PartChar(top[k]) {
      assert top[k] == d[jd + 1 + k];
    }
    assert s[i] == '@' && s[j] == '.' && IsPart(s[..i]) && IsPart(s[i + 1..j]) && IsPart(s[j + 1..]);
  }

  /** Everything the regular expression matches, the validator accepts. */
  lemma MatchesIsValidEmail(s: string, i: int, j: int)
    requires 0 <= i < j < |s| && s[i] == '@' && s[j] == '.'
    requires IsPart(s[..i]) && IsPart(s[i + 1..j]) && IsPart(s[j + 1..])
    ensures ValidateEmail(s)
  {
    forall k | 0 <= k < i ensures s[k] != '@' {
      assert s[..i][k] == s[k];
    }
    var r := IndexOf(s, '@');
    assert r == Some(i);
    var d := s[i + 1..];
    var jd := j - i - 1;
    forall k | 0 <= k < |d| ensures PartChar(d[k]) {
      if k < jd {
        assert d[k] == s[i + 1..j][k];
      } else if k > jd {
        assert d[k] == s[j + 1..][k - jd - 1];
      } else {
        assert d[k] == '.';
      }
    }
    assert 1 <= jd < |d| - 1 && d[jd] == '.';
  }

  /** The validator accepts exactly the strings the regular expression matches. */
  lemma ValidateEmailMatchesPattern(s: string)
    ensures ValidateEmail(s) <==> MatchesEmailPattern(s)
  {
    if ValidateEmail(s) {
      ValidEmailMatches(s);
    }
    if MatchesEmailPattern(s) {
      var i, j :| 0 <= i < j < |s| && s[i] == '@' && s[j] == '.'
        && IsPart(s[..i]) && IsPart(s[i + 1..j]) && IsPart(s[j + 1..]);
      MatchesIsValidEmail(s, i, j);
    }
  }

  /** `password.length`: JavaScript counts UTF-16 code units, two for a code point above U+FFFF. */
  function Utf16Length(s: string): (n: nat)
    ensures |s| <= n <= 2 * |s|
  {
    if s == [] then 0 else Utf16Length(s[..|s| - 1]) + (if s[|s| - 1] as int > 0xFFFF then 2 else 1)
  }

  const MinPasswordLength: nat := 6
  const ShortPasswordMessage: string := "Password must be at least 6 characters long"

  datatype PasswordCheck = PasswordCheck(isValid: bool, message: Option<string>)

  /** `validatePassword`. */
  function ValidatePassword(password: string): (r: PasswordCheck)
    ensures r.isValid <==> Utf16Length(password) >= MinPasswordLength
    ensures r.isValid <==> r.message.None?
    ensures !r.isValid ==> r.message == Some(ShortPasswordMessage)
  {
    if Utf16Length(password) < MinPasswordLength then PasswordCheck(false, Some(ShortPasswordMessage))
    else PasswordCheck(true, None)
  }

  const Salt: string := "safekeep_salt"

  /** `btoa` accepts only strings whose code points are at most 0xFF. */
  predicate Latin1(s: string) { forall k :: 0 <= k < |s| ==> s[k] as int < 256 }

  function Bytes(s: string): (bs: seq<Byte>)
    requires Latin1(s)
    ensures |bs| == |s| && forall k :: 0 <= k < |s| ==> bs[k] == s[k] as int
  {
    seq(|s|, k requires 0 <= k < |s| => s[k] as int as Byte)
  }

  /** The salt is plain ASCII, so salting never makes `btoa` throw. */
  lemma SaltedLatin1(password: string)
    ensures Latin1(password + Salt) <==> Latin1(password)
  {
    assert forall k :: 0 <= k < |password| ==> (password + Salt)[k] == password[k];
    assert forall k :: 0 <= k < |Salt| ==> (password + Salt)[|password| + k] == Salt[k];
    assert Latin1(Salt);
  }

  /** `hashPassword`: base64 of password + salt; None where `btoa` throws. */
  function HashPassword(password: string): (r: Option<string>)
    ensures r.Some? <==> Latin1(password)
  {
    var salted := password + Salt;
    SaltedLatin1(password);
    if Latin1(salted) then Some(Encode(Bytes(salted))) else None
  }

  /** `verifyPassword`: None where hashing the candidate throws. */
  function VerifyPassword(password: string, hashed: string): (r: Option<bool>)
    ensures r.Some? <==> Latin1(password)
  {
    match HashPassword(password)
    case None => None
    case Some(h) => Some(h == hashed)
  }

  /** A password verifies against its own hash. */
  lemma VerifyOwnHash(password: string)
    requires Latin1(password)
    ensures VerifyPassword(password, HashPassword(password).value) == Some(true)
  {
  }

  /** Equal hashes come from equal passwords. */
  lemma HashInjective(p: string, q: string)
    requires Latin1(p) && Latin1(q) && HashPassword(p) == HashPassword(q)
    ensures p == q
  {
    EncodeInjective(Bytes(q + Salt), Bytes(p + Salt));
    assert |q| == |p|;
    forall k | 0 <= k < |q| ensures q[k] == p[k] {
      assert (q + Salt)[k] == q[k] && (p + Salt)[k] == p[k];
    }
  }

  /** No other password verifies against it. */
  lemma VerifyOtherPassword(p: string, q: string)
    requires Latin1(p) && Latin1(q) && p != q
    ensures VerifyPassword(q, HashPassword(p).value) == Some(false)
  {
    if HashPassword(q) == HashPassword(p) {
      HashInjective(p, q);
    }
  }

  /** `String.prototype.toLowerCase` on ASCII letters. */
  function Lower(s: string): (r: string)
    ensures |r| == |s|
    ensures forall k :: 0 <= k < |s| ==> r[k] == if 'A' <= s[k] <= 'Z' then (s[k] as int + 32) as char else s[k]
  {
    seq(|s|, k requires 0 <= k < |s| => if 'A' <= s[k] <= 'Z' then (s[k] as int + 32) as char else s[k])
  }

  datatype User = User(id: string, email: string, createdAt: int, lastLoginAt: int)

  /** A saved user record; the hash is absent when it was never written. */
  datatype StoredUser = StoredUser(user: User, passwordHash: Option<string>)

  /** The `{ success, message?, user? }` result of signup and login. */
  datatype AuthResult = AuthResult(success: bool, message: Option<string>, user: Option<User>)

  function Failure(message: string): AuthResult { AuthResult(false, Some(message), None) }

  const InvalidEmailMessage: string := "Please enter a valid email address"
  const MismatchMessage: string := "Passwords do not match"
  const ExistsMessage: string := "An account with this email already exists"
  const SignupErrorMessage: string := "An error occurred during signup. Please try again."
  const NoAccountMessage: string := "No account found with this email address"
  const IncorrectPasswordMessage: string := "Incorrect password"
  const LoginErrorMessage: string := "An error occurred during login. Please try again."

  /** The checks of `signup` before an account is created: the first one that fails, if any. */
  function SignupCheck(users: map<string, StoredUser>, email: string, password: string, confirm: string): (r: Option<string>)
    ensures r == Some(InvalidEmailMessage) <==> !ValidateEmail(email)
    ensures r == Some(ShortPasswordMessage) <==> ValidateEmail(email) && Utf16Length(password) < 6
    ensures r == Some(MismatchMessage)
            <==> ValidateEmail(email) && Utf16Length(password) >= 6 && password != confirm
    ensures r == Some(ExistsMessage)
            <==> ValidateEmail(email) && Utf16Length(password) >= 6 && password == confirm && email in users
    ensures r.None? <==> ValidateEmail(email) && Utf16Length(password) >= 6 && password == confirm && email !in users
  {
    if !ValidateEmail(email) then Some(InvalidEmailMessage)
    else if !ValidatePassword(password).isValid then ValidatePassword(password).message
    else if password != confirm then Some(MismatchMessage)
    else if email in users then Some(ExistsMessage)
    else None
  }

  /** How `login` ends: a refusal with its message, an exception, or acceptance of a stored record. */
  datatype LoginDecision = Refused(message: string) | Threw | Accepted(record: StoredUser)

  /** A stored hash that `!user.passwordHash` treats as missing. */
  predicate NoHash(record: StoredUser) { record.passwordHash.None? || record.passwordHash == Some("") }

  /** The checks of `login`, in order. */
  function LoginCheck(users: map<string, StoredUser>, email: string, password: string): (r: LoginDecision)
    ensures r == Refused(InvalidEmailMessage) <==> !ValidateEmail(email)
    ensures r == Refused(NoAccountMessage) <==> ValidateEmail(email) && email !in users
    ensures r == Refused(IncorrectPasswordMessage)
            <==> ValidateEmail(email) && email in users
                 && (NoHash(users[email]) || VerifyPassword(password, users[email].passwordHash.value) == Some(false))
    ensures r.Threw? <==> ValidateEmail(email) && email in users && !NoHash(users[email]) && !Latin1(password)
    ensures r.Accepted? <==> ValidateEmail(email) && email in users && !NoHash(users[email])
                             && VerifyPassword(password, users[email].passwordHash.value) == Some(true)
    ensures r.Accepted? ==> r.record == users[email]
  {
    if !ValidateEmail(email) then Refused(InvalidEmailMessage)
    else if email !in users then Refused(NoAccountMessage)
    else
      var record := users[email];
      if NoHash(record) then Refused(IncorrectPasswordMessage)
      else match VerifyPassword(password, record.passwordHash.value)
        case None => Threw
        case Some(ok) => if ok then Accepted(record) else Refused(IncorrectPasswordMessage)
  }

  /**
   * The user-store calls of `signup` and `login`, in the order they are made:
   * the look-up by e-mail, saving the user, saving it with its hash (signup
   * only), setting the current user and migrating the local items.
   */
  datatype StoreCall = Lookup | SaveUser | SaveHash | SetCurrent | Migrate

  /** The saved users and the current-user slot. */
  class UserStore {
    var users: map<string, StoredUser>
    var current: Option<User>

    constructor ()
      ensures users == map[] && current == None
    {
      users := map[];
      current := None;
    }

    /**
     * `signup`. `newId` and `now` stand for the generated id and the clock;
     * `fault` is the store call that throws, if any. A failed check changes
     * nothing. Otherwise the user is saved under the lower-cased e-mail, then
     * saved again with its hash, made current and its local items migrated;
     * a throw at any step (the hash included) ends in the generic error and
     * leaves whatever was written before it.
     */
    method Signup(email: string, password: string, confirm: string, newId: string, now: int,
                  fault: Option<StoreCall>)
      returns (r: AuthResult)
      modifies this
      ensures var check := SignupCheck(old(users), email, password, confirm);
              var newUser := User(newId, Lower(email), now, now);
              var bare := old(users)[Lower(email) := StoredUser(newUser, None)];
              var hashed := old(users)[Lower(email) := StoredUser(newUser, HashPassword(password))];
              if check.Some? && check != Some(ExistsMessage) then
                r == Failure(check.value) && users == old(users) && current == old(current)
              else if fault == Some(Lookup) then
                r == Failure(SignupErrorMessage) && users == old(users) && current == old(current)
              else if check.Some? then
                r == Failure(ExistsMessage) && users == old(users) && current == old(current)
              else if fault == Some(SaveUser) then
                r == Failure(SignupErrorMessage) && users == old(users) && current == old(current)
              else if !Latin1(password) || fault == Some(SaveHash) then
                r == Failure(SignupErrorMessage) && users == bare && current == old(current)
              else if fault == Some(SetCurrent) then
                r == Failure(SignupErrorMessage) && users == hashed && current == old(current)
              else if fault == Some(Migrate) then
                r == Failure(SignupErrorMessage) && users == hashed && current == Some(newUser)
              else
                r == AuthResult(true, None, Some(newUser)) && users == hashed && current == Some(newUser)
      ensures r.success ==> r.user.Some? && r.user.value.email == Lower(email) && fault.None?
    {
      var check := SignupCheck(users, email, password, confirm);
      if check.Some? && check != Some(ExistsMessage) {
        return Failure(check.value);
      }
      if fault == Some(Lookup) {
        return Failure(SignupErrorMessage);
      }
      if check.Some? {
        return Failure(ExistsMessage);
      }
      var newUser := User(newId, Lower(email), now, now);
      if fault == Some(SaveUser) {
        return Failure(SignupErrorMessage);
      }
      users := users[newUser.email := StoredUser(newUser, None)];
      var hash := HashPassword(password);
      if hash.None? || fault == Some(SaveHash) {
        return Failure(SignupErrorMessage);
      }
      users := users[newUser.email := StoredUser(newUser, hash)];
      if fault == Some(SetCurrent) {
        return Failure(SignupErrorMessage);
      }
      current := Some(newUser);
      if fault.Some? {
        assert fault.value.Migrate?;  // the only call left to throw
        return Failure(SignupErrorMessage);
      }
      r := AuthResult(true, None, Some(newUser));
    }

    /**
     * `login`; `fault` is the store call that throws, if any. On acceptance
     * only `lastLoginAt` changes: the record keeps its id, e-mail, creation
     * time and stored hash, is saved again and becomes current, and the local
     * items are migrated; a throw at any step ends in the generic error and
     * leaves whatever was written before it. A refusal changes nothing.
     */
    method Login(email: string, password: string, now: int, fault: Option<StoreCall>) returns (r: AuthResult)
      modifies this
      ensures !ValidateEmail(email) ==>
                r == Failure(InvalidEmailMessage) && users == old(users) && current == old(current)
      ensures ValidateEmail(email) && fault == Some(Lookup) ==>
                r == Failure(LoginErrorMessage) && users == old(users) && current == old(current)
      ensures ValidateEmail(email) && fault != Some(Lookup) ==>
              match LoginCheck(old(users), email, password)
              case Refused(message) =>
                r == Failure(message) && users == old(users) && current == old(current)
              case Threw =>
                r == Failure(LoginErrorMessage) && users == old(users) && current == old(current)
              case Accepted(record) =>
                var updated := record.user.(lastLoginAt := now);
                var saved := old(users)[record.user.email := StoredUser(updated, record.passwordHash)];
                if fault == Some(SaveUser) then
                  r == Failure(LoginErrorMessage) && users == old(users) && current == old(current)
                else if fault == Some(SetCurrent) then
                  r == Failure(LoginErrorMessage) && users == saved && current == old(current)
                else if fault == Some(Migrate) then
                  r == Failure(LoginErrorMessage) && users == saved && current == Some(updated)
                else
                  r == AuthResult(true, None, Some(updated)) && users == saved && current == Some(updated)
      ensures r.success ==> r.user.Some? && fault != Some(Lookup) && fault != Some(SaveUser)
                            && fault != Some(SetCurrent) && fault != Some(Migrate)
    {
      if !ValidateEmail(email) {
        return Failure(InvalidEmailMessage);
      }
      if fault == Some(Lookup) {
        return Failure(LoginErrorMessage);
      }
      var decision := LoginCheck(users, email, password);
      match decision
      case Refused(message) =>
        r := Failure(message);
      case Threw =>
        r := Failure(LoginErrorMessage);
      case Accepted(record) =>
        var updated := User(record.user.id, record.user.email, record.user.createdAt, now);
        if fault == Some(SaveUser) {
          return Failure(LoginErrorMessage);
        }
        users := users[updated.email := StoredUser(updated, record.passwordHash)];
        if fault == Some(SetCurrent) {
          return Failure(LoginErrorMessage);
        }
        current := Some(updated);
        if fault == Some(Migrate) {
          return Failure(LoginErrorMessage);
        }
        r := AuthResult(true, None, Some(updated));
    }

    /** `isAuthenticated`: whether a current user is stored; a failed read answers no. */
    method IsAuthenticated(readOk: bool) returns (b: bool)
      ensures b <==> readOk && current.Some?
    {
      b := readOk && current.Some?;
    }

    /** `logout`: clears the current user, or rethrows when storage fails. */
    method Logout(writeOk: bool) returns (result: Outcome<string>)
      modifies this`current
      ensures result.Pass? <==> writeOk
      ensures current == if writeOk then None else old(current)
    {
      if !writeOk {
        return Fail("setCurrentUser failed");
      }
      current := None;
      result := Pass;
    }
  }

  /** Signing up and then logging in with the same ASCII-lower-case credentials succeeds. */
  lemma SignupThenLogin(users: map<string, StoredUser>, email: string, password: string, id: string, t0: int)
    requires SignupCheck(users, email, password, password).None? && Latin1(password) && Lower(email) == email
    ensures var stored := users[email := StoredUser(User(id, email, t0, t0), HashPassword(password))];
            LoginCheck(stored, email, password) == Accepted(stored[email])
  {
    var h := HashPassword(password).value;
    assert |h| > 0 by {
      assert |Bytes(password + Salt)| > 0;
    }
    VerifyOwnHash(password);
  }
}
