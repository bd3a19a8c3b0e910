/**
 * User accounts (src/core/auth.py) and the first-user registration form
 * (src/frontend/app.py): the field normalisers, the e-mail pattern, what a
 * stored user looks like once serialised, the login decision and the values
 * an update writes. The user table, the password hash and its check are
 * parameters.
 */
module Accounts {
  import opened Wrappers
  import opened PyText
  import opened PyValue

  const UsernameLength := "O usuário deve ter entre 3 e 20 caracteres."
  const EmailInvalid := "Informe um e-mail válido."
  const PasswordShort := "A senha deve ter pelo menos 6 caracteres."
  const RoleInvalid := "Tipo de usuário inválido. Use ADMIN ou USER."
  const UserConflict := "Usuário ou e-mail já existe."
  const UserNotFound := "Usuário não encontrado."

  const MinUsername := 3
  const MaxUsername := 20
  const MinPassword := 6

  // ---------------------------------------------------------------- fields

  /** `_normalize_username`: stripped and lower-cased, between 3 and 20 characters. */
  function NormalizeUsername(username: string): (r: Result<string, string>)
    ensures r.Success? <==> MinUsername <= |Lower(Strip(username))| <= MaxUsername
    ensures r.Success? ==> r.value == Lower(Strip(username))
    ensures r.Failure? ==> r.error == UsernameLength
  {
    var value := Lower(Strip(username));
    if |value| < MinUsername || |value| > MaxUsername then Failure(UsernameLength) else Success(value)
  }

  /** A normalised username normalises to itself. */
  lemma UsernameIdempotent(username: string)
    requires NormalizeUsername(username).Success?
    ensures NormalizeUsername(NormalizeUsername(username).value) == NormalizeUsername(username)
  {
    CaseFoldedFixed(username);
  }

  /** Stripped and lower-cased text is its own strip and its own lower case. */
  lemma CaseFoldedFixed(text: string)
    ensures Lower(Strip(Lower(Strip(text)))) == Lower(Strip(text))
  {
    var t := Strip(text);
    TrimmedFolds(t);
  }

  /** Lower-casing trimmed text leaves it trimmed and lower-cased. */
  lemma TrimmedFolds(t: string)
    requires Trimmed(t)
    ensures Strip(Lower(t)) == Lower(t) && Lower(Lower(t)) == Lower(t)
  {
    LowerKeepsEnds(t);
    var u := Lower(t);
    assert Trimmed(u);
    StripOfTrimmed(u);
    LowerIdempotent(t);
  }

  /** Neither `@` nor whitespace: a character of `[^@\s]`. */
  predicate Plain(c: char) { c != '@' && !IsSpace(c) }

  /**
   * The language of `^[^@\s]+@[^@\s]+\.[^@\s]{2,}(?:\.[^@\s]{2,})?$`: one
   * `@` after at least one character, nothing else but plain characters,
   * and a dot at least two characters after the `@` and followed by at
   * least two more. The optional group adds no string, as the dot is
   * itself a plain character; `$` before a final newline never applies, as
   * the text is stripped first.
   */
  predicate EmailPattern(s: string) {
    exists i, j ::
      0 < i && i + 2 <= j && j + 3 <= |s| && s[i] == '@' && s[j] == '.'
      && forall k :: 0 <= k < |s| && k != i ==> Plain(s[k])
  }

  /** The regex match, as one scan: where the `@` is, and whether a usable dot has been seen. */
  method MatchEmail(s: string) returns (ok: bool)
    ensures ok <==> EmailPattern(s)
  {
    var at := -1;
    var dot := false;
    var k := 0;
    while k < |s|
      invariant 0 <= k <= |s| && -1 <= at < k
      invariant forall m :: 0 <= m < k ==> !IsSpace(s[m])
      invariant at == -1 ==> forall m :: 0 <= m < k ==> s[m] != '@'
      invariant at >= 0 ==> s[at] == '@' && forall m :: 0 <= m < k && m != at ==> s[m] != '@'
      invariant dot <==> at >= 0 && exists j :: at + 2 <= j < k && j + 3 <= |s| && s[j] == '.'
    {
      if IsSpace(s[k]) {
        NoSpaceAllowed(s, k);
        return false;
      }
      if s[k] == '@' {
        if at >= 0 {
          OneAtOnly(s, at, k);
          return false;
        }
        at := k;
      } else if s[k] == '.' && at >= 0 && at + 2 <= k && k + 3 <= |s| {
        dot := true;
      }
      k := k + 1;
    }
    ok := at > 0 && dot;
    if ok {
      var j :| at + 2 <= j < |s| && j + 3 <= |s| && s[j] == '.';
      assert forall m :: 0 <= m < |s| && m != at ==> Plain(s[m]);
      assert EmailPattern(s) by {
        assert 0 < at && at + 2 <= j && j + 3 <= |s| && s[at] == '@' && s[j] == '.';
      }
    }
    if EmailPattern(s) {
      var i, j :| 0 < i && i + 2 <= j && j + 3 <= |s| && s[i] == '@' && s[j] == '.'
                  && forall m :: 0 <= m < |s| && m != i ==> Plain(s[m]);
      assert at == i;
      assert dot;
    }
  }

  lemma NoSpaceAllowed(s: string, k: int)
    requires 0 <= k < |s| && IsSpace(s[k])
    ensures !EmailPattern(s)
  {
  }

  lemma OneAtOnly(s: string, a: int, b: int)
    requires 0 <= a < b < |s| && s[a] == '@' && s[b] == '@'
    ensures !EmailPattern(s)
  {
  }

  /** `_normalize_email`: stripped and lower-cased, non-empty and matching the pattern. */
  function NormalizeEmail(email: string): (r: Result<string, string>)
    ensures r.Success? <==> EmailPattern(Lower(Strip(email)))
    ensures r.Success? ==> r.value == Lower(Strip(email)) && '@' in r.value
    ensures r.Failure? ==> r.error == EmailInvalid
  {
    var value := Lower(Strip(email));
    if value == [] || !EmailPattern(value) then Failure(EmailInvalid) else Success(value)
  }

  /** A normalised e-mail normalises to itself. */
  lemma EmailIdempotent(email: string)
    requires NormalizeEmail(email).Success?
    ensures NormalizeEmail(NormalizeEmail(email).value) == NormalizeEmail(email)
  {
    CaseFoldedFixed(email);
  }

  /** `_validate_password`: the error, when the password is shorter than 6 characters. */
  function PasswordError(password: string): (r: Option<string>)
    ensures r.Some? <==> |password| < MinPassword
    ensures r.Some? ==> r.value == PasswordShort
  {
    if |password| < MinPassword then Some(PasswordShort) else None
  }

  /** `_validate_role`: stripped and upper-cased, one of ADMIN and USER. */
  function ValidateRole(role: string): (r: Result<string, string>)
    ensures r.Success? <==> Upper(Strip(role)) in {"ADMIN", "USER"}
    ensures r.Success? ==> r.value == Upper(Strip(role))
    ensures r.Failure? ==> r.error == RoleInvalid
  {
    var clean := Upper(Strip(role));
    if clean in {"ADMIN", "USER"} then Success(clean) else Failure(RoleInvalid)
  }

  /** A validated role validates to itself. */
  lemma RoleIdempotent(role: string)
    requires ValidateRole(role).Success?
    ensures ValidateRole(ValidateRole(role).value) == ValidateRole(role)
  {
    var v := ValidateRole(role).value;
    assert v in {"ADMIN", "USER"};
    if v == "ADMIN" {
      AdminValid();
    } else {
      UserValid();
    }
  }

  /** Example: the stored spelling ADMIN validates to itself. */
  lemma AdminValid()
    ensures ValidateRole("ADMIN") == Success("ADMIN")
  {
    StripOfTrimmed("ADMIN");
    UpperAdmin();
  }

  /** Example: the stored spelling USER validates to itself. */
  lemma UserValid()
    ensures ValidateRole("USER") == Success("USER")
  {
    StripOfTrimmed("USER");
    UpperUser();
  }

  /**
   * The role is matched in any letter case and with surrounding blanks: two
   * inputs that agree once stripped and upper-cased validate alike, so
   * `" user "` is accepted as USER.
   */
  lemma RoleAnyCase(a: string, b: string)
    requires Upper(Strip(a)) == Upper(Strip(b))
    ensures ValidateRole(a) == ValidateRole(b)
    ensures ValidateRole(" user ") == Success("USER")
  {
    StripUser();
    UpperOfLowerUser();
  }

  lemma StripUser()
    ensures Strip(" user ") == "user"
  {
    assert " user " == " " + "user" + " ";
    StripPadded(" ", "user", " ");
  }

  lemma UpperOfLowerUser()
    ensures Upper("user") == "USER"
  {
    UpperAscii("user", "USER");
  }

  lemma UpperAdmin()
    ensures Upper("ADMIN") == "ADMIN"
  {
    UpperAscii("ADMIN", "ADMIN");
  }

  lemma UpperUser()
    ensures Upper("USER") == "USER"
  {
    UpperAscii("USER", "USER");
  }

  // ---------------------------------------------------------------- stored users

  const PasswordHashKey := "password_hash"

  /** `_serialize_user`: the row as a dict, without its password hash. */
  function SerializeUser(row: Dict): (r: Dict)
    ensures !HasKey(r, PasswordHashKey)
    ensures forall k :: k != PasswordHashKey ==> Get(r, k) == Get(row, k)
  {
    var r := Without(row, {PasswordHashKey});
    forall k {
      GetWithout(row, {PasswordHashKey}, k);
    }
    r
  }

  /** `data.get("is_active", True)` is truthy: the flag is missing or set to a truthy value. */
  predicate Active(row: Dict) {
    Get(row, "is_active").None? || Truthy(Get(row, "is_active").value)
  }

  /** The outcome of `verify_credentials`: whether the login succeeds, and the user it logs in. */
  datatype Login = Login(ok: bool, user: Option<Dict>)

  /**
   * `verify_credentials`: the username is normalised (and may be refused);
   * an unknown user, an inactive one (`is_active` present and falsy) or a
   * password the hash does not accept gives `(False, None)`; otherwise the
   * user without its hash. A row without `password_hash` raises `KeyError`.
   */
  function VerifyCredentials(username: string, password: string, users: string -> Option<Dict>,
                             verify: (string, Value) -> bool): (r: Result<Login, string>)
    ensures NormalizeUsername(username).Failure? ==> r == Failure(UsernameLength)
    ensures r.Success? && r.value.ok ==>
              r.value.user.Some? && !HasKey(r.value.user.value, PasswordHashKey)
              && users(NormalizeUsername(username).value).Some?
              && var row := users(NormalizeUsername(username).value).value;
                 (Get(row, "is_active").None? || Truthy(Get(row, "is_active").value))
                 && HasKey(row, PasswordHashKey) && verify(password, Lookup(row, PasswordHashKey))
                 && forall k :: k != PasswordHashKey ==> Get(r.value.user.value, k) == Get(row, k)
    ensures r.Success? && !r.value.ok ==> r.value.user.None?
    ensures (NormalizeUsername(username).Success? && users(NormalizeUsername(username).value).None?)
              ==> r == Success(Login(false, None))
    ensures (NormalizeUsername(username).Success? && users(NormalizeUsername(username).value).Some?)
              ==> var row := users(NormalizeUsername(username).value).value;
                  (!Active(row) ==> r == Success(Login(false, None)))
                  && ((Active(row) && !HasKey(row, PasswordHashKey)) ==> r.Failure?)
                  && ((Active(row) && HasKey(row, PasswordHashKey) && !verify(password, Lookup(row, PasswordHashKey)))
                        ==> r == Success(Login(false, None)))
                  && ((Active(row) && HasKey(row, PasswordHashKey) && verify(password, Lookup(row, PasswordHashKey)))
                        ==> r == Success(Login(true, Some(SerializeUser(row)))))
  {
    var name :- NormalizeUsername(username);
    match users(name)
    case None => Success(Login(false, None))
    case Some(row) =>
      if !Active(row) then Success(Login(false, None))
      else if !HasKey(row, PasswordHashKey) then Failure("KeyError: 'password_hash'")
      else if !verify(password, Lookup(row, PasswordHashKey)) then Success(Login(false, None))
      else Success(Login(true, Some(SerializeUser(row))))
  }

  /** An inactive user (`is_active` set to any falsy value) cannot log in, whatever the password. */
  lemma InactiveCannotLogIn(username: string, password: string, users: string -> Option<Dict>,
                            verify: (string, Value) -> bool)
    requires NormalizeUsername(username).Success?
    requires users(NormalizeUsername(username).value).Some?
    requires Get(users(NormalizeUsername(username).value).value, "is_active").Some?
    requires !Truthy(Get(users(NormalizeUsername(username).value).value, "is_active").value)
    ensures VerifyCredentials(username, password, users, verify) == Success(Login(false, None))
  {
  }

  /** What `_update_user_impl` is given. */
  datatype UserUpdate = UserUpdate(
    username: string, fullName: string, email: string, password: Option<string>, isActive: Option<bool>, role: Option<string>)

  /** The keys `_update_user_impl` can write. */
  const UserColumns := {"username", "full_name", "email", PasswordHashKey, "is_active", "role"}

  /** `d[k] = v` when `write` holds; `d` as it is otherwise. */
  function PutIf(d: Dict, write: bool, k: string, v: Value): (r: Dict)
    ensures write ==> Get(r, k) == Some(v)
    ensures !write ==> r == d
    ensures forall k' :: k' != k ==> Get(r, k') == Get(d, k')
  {
    if write then Put(d, k, v) else d
  }

  /** The three identity columns every update writes, in their insertion order. */
  function IdentityValues(u: UserUpdate): (r: Dict)
    ensures Get(r, "username") == Some(VStr(u.username))
    ensures Get(r, "full_name") == Some(VStr(u.fullName))
    ensures Get(r, "email") == Some(VStr(u.email))
    ensures forall k :: k != "username" && k != "full_name" && k != "email" ==> Get(r, k) == None
  {
    Put(Put(Put([], "username", VStr(u.username)), "full_name", VStr(u.fullName)), "email", VStr(u.email))
  }

  /** The identity columns, then the hash when a password is given. */
  function WithHash(u: UserUpdate, hash: string -> string): Dict {
    PutIf(IdentityValues(u), u.password.Some?, PasswordHashKey, VStr(hash(u.password.GetOr(""))))
  }

  /** Then the active flag, when given and the table has the column. */
  function WithActive(u: UserUpdate, hasActiveColumn: bool, hash: string -> string): Dict {
    PutIf(WithHash(u, hash), u.isActive.Some? && hasActiveColumn, "is_active", VBool(u.isActive.GetOr(false)))
  }

  /** The values dict of `_update_user_impl`, in its insertion order: last, the role when given. */
  function UserValues(u: UserUpdate, hasActiveColumn: bool, hash: string -> string): (r: Dict)
  {
    PutIf(WithActive(u, hasActiveColumn, hash), u.role.Some?, "role", VStr(u.role.GetOr("")))
  }

  /**
   * `_update_user_impl`: a username or e-mail used by another user is
   * refused; an update that touches no row is refused; otherwise the
   * values written.
   */
  function UpdateUser(u: UserUpdate, conflict: bool, hasActiveColumn: bool, rowFound: bool,
                      hash: string -> string): (r: Result<Dict, string>)
    ensures conflict ==> r == Failure(UserConflict)
    ensures !conflict && !rowFound ==> r == Failure(UserNotFound)
    ensures r.Success? <==> !conflict && rowFound
    ensures r.Success? ==> r.value == UserValues(u, hasActiveColumn, hash)
  {
    if conflict then Failure(UserConflict)
    else if !rowFound then Failure(UserNotFound)
    else Success(UserValues(u, hasActiveColumn, hash))
  }

  /** Username, full name and e-mail are always written, as given. */
  lemma UpdateWritesIdentity(u: UserUpdate, hasActiveColumn: bool, hash: string -> string)
    ensures var values := UserValues(u, hasActiveColumn, hash);
            Get(values, "username") == Some(VStr(u.username))
            && Get(values, "full_name") == Some(VStr(u.fullName))
            && Get(values, "email") == Some(VStr(u.email))
  {
    var base, withHash, withActive := IdentityValues(u), WithHash(u, hash), WithActive(u, hasActiveColumn, hash);
    var values := UserValues(u, hasActiveColumn, hash);
    forall k | k == "username" || k == "full_name" || k == "email"
      ensures Get(values, k) == Get(base, k)
    {
      assert Get(values, k) == Get(withActive, k) == Get(withHash, k);
    }
  }

  /** The password hash is written exactly when a new password is given, and it is that password's hash. */
  lemma UpdateWritesHash(u: UserUpdate, hasActiveColumn: bool, hash: string -> string)
    ensures var values := UserValues(u, hasActiveColumn, hash);
            (HasKey(values, PasswordHashKey) <==> u.password.Some?)
            && (u.password.Some? ==> Get(values, PasswordHashKey) == Some(VStr(hash(u.password.value))))
  {
    var withHash, withActive := WithHash(u, hash), WithActive(u, hasActiveColumn, hash);
    assert Get(IdentityValues(u), PasswordHashKey) == None;
    assert Get(UserValues(u, hasActiveColumn, hash), PasswordHashKey) == Get(withActive, PasswordHashKey)
           == Get(withHash, PasswordHashKey);
  }

  /** The active flag is written exactly when given and the table has the column. */
  lemma UpdateWritesActive(u: UserUpdate, hasActiveColumn: bool, hash: string -> string)
    ensures var values := UserValues(u, hasActiveColumn, hash);
            (HasKey(values, "is_active") <==> u.isActive.Some? && hasActiveColumn)
            && (HasKey(values, "is_active") ==> Get(values, "is_active") == Some(VBool(u.isActive.value)))
  {
    assert Get(UserValues(u, hasActiveColumn, hash), "is_active") == Get(WithActive(u, hasActiveColumn, hash), "is_active");
    if !(u.isActive.Some? && hasActiveColumn) {
      assert WithActive(u, hasActiveColumn, hash) == WithHash(u, hash);
      NoFlagBefore(u, hash);
    }
  }

  /** Before the active step no flag is written. */
  lemma NoFlagBefore(u: UserUpdate, hash: string -> string)
    ensures Get(WithHash(u, hash), "is_active") == None
  {
    assert Get(WithHash(u, hash), "is_active") == Get(IdentityValues(u), "is_active");
  }

  /** The role is written exactly when given, as given. */
  lemma UpdateWritesRole(u: UserUpdate, hasActiveColumn: bool, hash: string -> string)
    ensures var values := UserValues(u, hasActiveColumn, hash);
            (HasKey(values, "role") <==> u.role.Some?)
            && (u.role.Some? ==> Get(values, "role") == Some(VStr(u.role.value)))
  {
    if u.role.None? {
      assert UserValues(u, hasActiveColumn, hash) == WithActive(u, hasActiveColumn, hash);
      NoRoleBefore(u, hasActiveColumn, hash);
    }
  }

  /** Before the last step no role is written. */
  lemma NoRoleBefore(u: UserUpdate, hasActiveColumn: bool, hash: string -> string)
    ensures Get(WithActive(u, hasActiveColumn, hash), "role") == None
  {
    NoRoleInHash(u, hash);
  }

  /** Neither the identity columns nor the hash are the role. */
  lemma NoRoleInHash(u: UserUpdate, hash: string -> string)
    ensures Get(WithHash(u, hash), "role") == None
  {
    assert Get(WithHash(u, hash), "role") == Get(IdentityValues(u), "role");
  }

  /** Nothing outside the six user columns is written. */
  lemma UpdateWritesOnlyColumns(u: UserUpdate, hasActiveColumn: bool, hash: string -> string, k: string)
    requires k !in UserColumns
    ensures !HasKey(UserValues(u, hasActiveColumn, hash), k)
  {
    assert Get(UserValues(u, hasActiveColumn, hash), k) == Get(WithActive(u, hasActiveColumn, hash), k)
           == Get(WithHash(u, hash), k) == Get(IdentityValues(u), k);
  }

  // ---------------------------------------------------------------- first-user form

  const FormUsername := "Usuário deve ter entre 3 e 20 caracteres (minúsculas)."
  const FormUsernameEmpty := "Informe um usuário válido."
  const FormFullName := "Informe o nome completo."
  const FormMismatch := "As senhas não conferem."

  /** What the first-user registration form submits. */
  datatype FirstUserForm = FirstUserForm(username: string, fullName: string, email: string, password: string, confirm: string)

  /**
   * `_validate_first_user_form`: the first failing check gives its message,
   * in the order username length, password length, empty username, full
   * name, blank e-mail, e-mail pattern, confirmation; `None` when all pass.
   */
  function ValidateFirstUser(f: FirstUserForm): (r: Option<string>)
    ensures r.None? <==> MinUsername <= |Lower(Strip(f.username))| <= MaxUsername && |f.password| >= MinPassword
                         && !IsBlank(f.fullName) && EmailPattern(Lower(Strip(f.email))) && f.password == f.confirm
    ensures !(MinUsername <= |Lower(Strip(f.username))| <= MaxUsername) ==> r == Some(FormUsername)
    ensures (MinUsername <= |Lower(Strip(f.username))| <= MaxUsername && |f.password| < MinPassword)
              ==> r == Some(PasswordShort)
    ensures (MinUsername <= |Lower(Strip(f.username))| <= MaxUsername && |f.password| >= MinPassword && IsBlank(f.fullName))
              ==> r == Some(FormFullName)
    ensures (MinUsername <= |Lower(Strip(f.username))| <= MaxUsername && |f.password| >= MinPassword && !IsBlank(f.fullName)
             && !EmailPattern(Lower(Strip(f.email))))
              ==> r == Some(EmailInvalid)
    ensures (MinUsername <= |Lower(Strip(f.username))| <= MaxUsername && |f.password| >= MinPassword && !IsBlank(f.fullName)
             && EmailPattern(Lower(Strip(f.email))) && f.password != f.confirm)
              ==> r == Some(FormMismatch)
    ensures r.Some? && r.value == FormMismatch ==>
              MinUsername <= |Lower(Strip(f.username))| <= MaxUsername && |f.password| >= MinPassword
              && !IsBlank(f.fullName) && EmailPattern(Lower(Strip(f.email))) && f.password != f.confirm
  {
    var user := Lower(Strip(f.username));
    if |user| < MinUsername || |user| > MaxUsername then Some(FormUsername)
    else if |f.password| < MinPassword then Some(PasswordShort)
    else if user == [] then Some(FormUsernameEmpty)
    else if IsBlank(f.fullName) then Some(FormFullName)
    else if IsBlank(f.email) then Some(EmailInvalid)
    else if !EmailPattern(Lower(Strip(f.email))) then Some(EmailInvalid)
    else if f.password != f.confirm then Some(FormMismatch)
    else None
  }

  /** The empty-username check comes after the length check and can never fire. */
  lemma EmptyUsernameUnreachable(f: FirstUserForm)
    ensures ValidateFirstUser(f) != Some(FormUsernameEmpty)
  {
  }

  /** A form the page accepts is one the user store accepts: its username, e-mail and password pass the store's own checks. */
  lemma AcceptedFormIsValidUser(f: FirstUserForm)
    requires ValidateFirstUser(f).None?
    ensures NormalizeUsername(f.username).Success?
    ensures NormalizeEmail(f.email).Success?
    ensures PasswordError(f.password).None?
  {
  }
}
