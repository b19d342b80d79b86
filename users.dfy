/**
 * User accounts: the user manager's create_user / create_superuser, the
 * email normalisation they apply, the user serializer's create and update,
 * and the credential check of the token serializer.
 */
module Users {
  import opened Common
  import opened Strings
  import opened Models

  /** `rsplit('@', 1)`: the part before the last '@' and the part after it. */
  function SplitEmail(email: string): (r: Option<(string, string)>)
    ensures r.None? <==> '@' !in email
    ensures r.Some? ==> email == r.value.0 + "@" + r.value.1 && '@' !in r.value.1
  {
    match LastIndexOf(email, '@')
    case None => None
    case Some(at) =>
      assert email == email[..at] + "@" + email[at + 1..];
      Some((email[..at], email[at + 1..]))
  }

  /** Splitting a joined address gives back its local part and its domain. */
  lemma SplitJoin(local: string, domain: string)
    requires '@' !in domain
    ensures SplitEmail(local + "@" + domain) == Some((local, domain))
  {
    var email := local + "@" + domain;
    assert email[|local|] == '@';
    assert email[|local| + 1..] == domain;
    LastIndexOfUnique(email, '@', |local|);
    assert email[..|local|] == local;
  }

  /**
   * The address as stored: the domain (after the last '@') is lower-cased and
   * the local part is kept; an address without '@' is kept as it is.
   */
  function NormalizeEmail(email: string): (r: string)
    ensures |r| == |email|
    ensures SplitEmail(email).None? ==> r == email
    ensures SplitEmail(email).Some? ==>
      SplitEmail(r) == Some((SplitEmail(email).value.0, Lower(SplitEmail(email).value.1)))
  {
    match SplitEmail(email)
    case None => email
    case Some((local, domain)) =>
      SplitJoin(local, Lower(domain));
      local + "@" + Lower(domain)
  }

  /** A normalised address has no capital letter in its domain. */
  predicate IsNormalized(email: string)
  {
    SplitEmail(email).None? || IsLower(SplitEmail(email).value.1)
  }

  lemma {:induction false} NormalizeEmailNormalizes(email: string)
    ensures IsNormalized(NormalizeEmail(email))
    ensures IsNormalized(email) ==> NormalizeEmail(email) == email
  {
    match SplitEmail(email)
    case None =>
    case Some((local, domain)) =>
      LowerIsLower(domain);
  }

  lemma {:induction false} NormalizeEmailIdempotent(email: string)
    ensures NormalizeEmail(NormalizeEmail(email)) == NormalizeEmail(email)
  {
    NormalizeEmailNormalizes(email);
    NormalizeEmailNormalizes(NormalizeEmail(email));
  }

  /** Two addresses that differ only in the case of their domain are stored alike. */
  lemma {:induction false} NormalizeEmailIgnoresDomainCase(local: string, d1: string, d2: string)
    requires '@' !in d1 && '@' !in d2 && Lower(d1) == Lower(d2)
    ensures NormalizeEmail(local + "@" + d1) == NormalizeEmail(local + "@" + d2)
  {
    SplitJoin(local, d1);
    SplitJoin(local, d2);
  }

  /** An address with a single '@' keeps its local part and lower-cases its domain. */
  lemma NormalizeEmailJoined(local: string, domain: string)
    requires '@' !in domain
    ensures NormalizeEmail(local + "@" + domain) == local + "@" + Lower(domain)
  {
    SplitJoin(local, domain);
  }

  datatype UserError =
    | MissingEmail        // create_user was given an empty email
    | DuplicateEmail      // the email column is unique
    | AuthorizationFailed // the credentials did not authenticate
    | NotAuthenticated    // the request carries no authenticated user
    | Invalid(fields: set<UserField>) // the payload fails validation on these fields

  /** The fields of the user serializer. */
  datatype UserField = EmailField | PasswordField | NameField

  /** The keyword arguments `create_user` passes on to the user record. */
  datatype ExtraFields = ExtraFields(
    name: Option<string>,
    isActive: Option<bool>,
    isStaff: Option<bool>,
    isSuperuser: Option<bool>)

  const NoExtraFields := ExtraFields(None, None, None, None)

  /** The data of a user create or update; every entry may be absent. */
  datatype UserPatch = UserPatch(email: Option<string>, name: Option<string>, password: Option<string>)

  /** `max_length` of the email and name columns. */
  const MaxUserFieldLength: nat := 255
  /** `min_length` of the password field. */
  const MinPasswordLength: nat := 5
  /** `max_length` of the password column the user model inherits from `AbstractBaseUser`. */
  const MaxPasswordLength: nat := 128

  /** The password field's own validation. */
  predicate PasswordAccepted(password: string)
  {
    MinPasswordLength <= |password| <= MaxPasswordLength
  }

  /** An accepted password is never empty, so an update that supplies one always sets it. */
  lemma AcceptedPasswordIsNonEmpty(password: string)
    requires PasswordAccepted(password)
    ensures password != ""
  {
  }

  /** The serializer's conversion of the payload: every character field strips surrounding whitespace. */
  function CleanPatch(patch: UserPatch): (r: UserPatch)
    ensures r.email.Some? == patch.email.Some? && r.name.Some? == patch.name.Some?
    ensures r.password.Some? == patch.password.Some?
    ensures r.email.Some? ==> r.email.value == Strip(patch.email.value)
    ensures r.name.Some? ==> r.name.value == Strip(patch.name.value)
    ensures r.password.Some? ==> r.password.value == Strip(patch.password.value)
  {
    UserPatch(
      if patch.email.Some? then Some(Strip(patch.email.value)) else None,
      if patch.name.Some? then Some(Strip(patch.name.value)) else None,
      if patch.password.Some? then Some(Strip(patch.password.value)) else None)
  }

  /**
   * The fields a cleaned payload gets wrong: a blank or overlong email or name,
   * a password outside its length bounds, or (unless partial) a missing field.
   */
  function UserInvalidFields(patch: UserPatch, partial: bool): (bad: set<UserField>)
    ensures EmailField in bad <==>
      (patch.email.Some? && !(0 < |patch.email.value| <= MaxUserFieldLength)) || (!partial && patch.email.None?)
    ensures NameField in bad <==>
      (patch.name.Some? && !(0 < |patch.name.value| <= MaxUserFieldLength)) || (!partial && patch.name.None?)
    ensures PasswordField in bad <==>
      (patch.password.Some? && !PasswordAccepted(patch.password.value)) || (!partial && patch.password.None?)
  {
    (if (patch.email.Some? && !(0 < |patch.email.value| <= MaxUserFieldLength)) || (!partial && patch.email.None?)
     then {EmailField} else {}) +
    (if (patch.name.Some? && !(0 < |patch.name.value| <= MaxUserFieldLength)) || (!partial && patch.name.None?)
     then {NameField} else {}) +
    (if (patch.password.Some? && !PasswordAccepted(patch.password.value)) || (!partial && patch.password.None?)
     then {PasswordField} else {})
  }

  /** A password of fewer than five characters after stripping is rejected. */
  lemma ShortPasswordRejected(patch: UserPatch, partial: bool)
    requires patch.password.Some? && |Strip(patch.password.value)| < MinPasswordLength
    ensures PasswordField in UserInvalidFields(CleanPatch(patch), partial)
  {
  }

  predicate EmailsUnique(users: map<UserId, User>)
  {
    forall a, b :: a in users && b in users && users[a].email == users[b].email ==> a == b
  }

  /** Adding a user under a fresh id keeps emails unique when no user has its email. */
  lemma AddKeepsEmailsUnique(users: map<UserId, User>, id: UserId, u: User)
    requires EmailsUnique(users) && id !in users
    requires forall other :: other in users ==> users[other].email != u.email
    ensures EmailsUnique(users[id := u])
  {
  }

  /** Replacing a user keeps emails unique when no other user has the new email. */
  lemma ReplaceKeepsEmailsUnique(users: map<UserId, User>, id: UserId, u: User)
    requires EmailsUnique(users) && id in users
    requires forall other :: other in users && other != id ==> users[other].email != u.email
    ensures EmailsUnique(users[id := u])
  {
  }

  /** The login attributes of the token serializer, and the user it resolves them to. */
  datatype LoginAttrs = LoginAttrs(email: Option<string>, password: Option<string>, user: Option<UserId>)

  /**
   * `AuthTokenSerializer.validate`: authentication is supplied by the caller;
   * no user means an authorization error, otherwise the attrs gain the user.
   */
  function ValidateLogin(attrs: LoginAttrs, authenticate: (Option<string>, Option<string>) -> Option<UserId>)
    : (r: Result<LoginAttrs, UserError>)
    ensures r.Err? <==> authenticate(attrs.email, attrs.password).None?
    ensures r.Err? ==> r.error == AuthorizationFailed
    ensures r.Ok? ==> r.value.email == attrs.email && r.value.password == attrs.password
    ensures r.Ok? ==> r.value.user == authenticate(attrs.email, attrs.password)
  {
    var user := authenticate(attrs.email, attrs.password);
    if user.None? then Err(AuthorizationFailed)
    else Ok(attrs.(user := user))
  }

  /** The user table, with an abstract password hash. */
  class UserStore {
    const hash: string -> string
    var users: map<UserId, User>
    var nextUser: nat

    ghost predicate Valid()
      reads this
    {
      && (forall id :: id in users ==> id < nextUser)
      && EmailsUnique(users)
    }

    constructor (hash: string -> string)
      ensures Valid()
      ensures this.hash == hash && users == map[]
    {
      this.hash := hash;
      users := map[];
      nextUser := 0;
    }

    /** `check_password`: the raw password hashes to the stored digest. */
    predicate PasswordMatches(c: Credential, raw: string)
    {
      c == Hashed(hash(raw))
    }

    /** `set_password`: hashes the raw password; no password makes it unusable. */
    function MakePassword(raw: Option<string>): (c: Credential)
      ensures raw.Some? ==> PasswordMatches(c, raw.value)
      ensures raw.None? ==> forall x :: !PasswordMatches(c, x)
    {
      match raw
      case None => Unusable
      case Some(p) => Hashed(hash(p))
    }

    predicate EmailTaken(email: string)
      reads this
    {
      exists id :: id in users && users[id].email == email
    }

    predicate EmailTakenByOther(id: UserId, email: string)
      reads this
    {
      exists other :: other in users && other != id && users[other].email == email
    }

    /** What `create_user` promises about the table afterwards. */
    twostate predicate CreatedUser(email: string, password: Option<string>, extra: ExtraFields,
                                   new r: Result<UserId, UserError>)
      reads this
    {
      && (email == "" ==> r == Err(MissingEmail) && users == old(users))
      && (email != "" && old(EmailTaken(NormalizeEmail(email))) ==>
            r == Err(DuplicateEmail) && users == old(users))
      && (email != "" && !old(EmailTaken(NormalizeEmail(email))) ==>
            && r.Ok? && r.value !in old(users) && r.value in users
            && users == old(users)[r.value := users[r.value]]
            && users[r.value].email == NormalizeEmail(email)
            && users[r.value].password == MakePassword(password)
            && users[r.value].name == extra.name.GetOr("")
            && users[r.value].isActive == extra.isActive.GetOr(true)
            && users[r.value].isStaff == extra.isStaff.GetOr(false)
            && users[r.value].isSuperuser == extra.isSuperuser.GetOr(false))
    }

    /** `UserManager.create_user`. */
    method CreateUser(email: string, password: Option<string>, extra: ExtraFields)
      returns (r: Result<UserId, UserError>)
      requires Valid()
      modifies this`users, this`nextUser
      ensures Valid()
      ensures CreatedUser(email, password, extra, r)
    {
      if email == "" {
        return Err(MissingEmail);
      }
      var user := User(NormalizeEmail(email), extra.name.GetOr(""), Unusable,
                       extra.isActive.GetOr(true), extra.isStaff.GetOr(false), extra.isSuperuser.GetOr(false));
      user := user.(password := MakePassword(password));
      if EmailTaken(user.email) {
        return Err(DuplicateEmail);
      }
      var id := nextUser;
      AddKeepsEmailsUnique(users, id, user);
      users := users[id := user];
      nextUser := nextUser + 1;
      r := Ok(id);
    }

    /** `UserManager.create_superuser`: create_user, then both staff flags set. */
    method CreateSuperuser(email: string, password: string) returns (r: Result<UserId, UserError>)
      requires Valid()
      modifies this`users, this`nextUser
      ensures Valid()
      ensures email == "" ==> r == Err(MissingEmail) && users == old(users)
      ensures email != "" && old(EmailTaken(NormalizeEmail(email))) ==>
        r == Err(DuplicateEmail) && users == old(users)
      ensures email != "" && !old(EmailTaken(NormalizeEmail(email))) ==>
        && r.Ok? && r.value !in old(users) && r.value in users
        && users == old(users)[r.value := users[r.value]]
        && users[r.value].email == NormalizeEmail(email)
        && PasswordMatches(users[r.value].password, password)
        && users[r.value].name == ""
        && users[r.value].isActive
        && users[r.value].isStaff && users[r.value].isSuperuser
    {
      r := CreateUser(email, Some(password), NoExtraFields);
      if r.Ok? {
        var user := users[r.value];
        user := user.(isStaff := true, isSuperuser := true);
        users := users[r.value := user];
      }
    }

    /** `UserSerializer.create`: hands the validated data to create_user. */
    method RegisterUser(email: string, password: string, name: string) returns (r: Result<UserId, UserError>)
      requires Valid()
      modifies this`users, this`nextUser
      ensures Valid()
      ensures CreatedUser(email, Some(password), NoExtraFields.(name := Some(name)), r)
    {
      r := CreateUser(email, Some(password), NoExtraFields.(name := Some(name)));
    }

    /**
     * `UserSerializer.update`: the password is taken out of the data, the other
     * fields are assigned, and the password is set only when one is given and
     * it is not empty.
     */
    method UpdateUser(id: UserId, patch: UserPatch) returns (r: Result<User, UserError>)
      requires Valid() && id in users
      modifies this`users
      ensures Valid()
      ensures old(patch.email.Some? && EmailTakenByOther(id, patch.email.value)) ==>
        r == Err(DuplicateEmail) && users == old(users)
      ensures !old(patch.email.Some? && EmailTakenByOther(id, patch.email.value)) ==>
        && id in users && r == Ok(users[id])
        && users == old(users)[id := users[id]]
        && users[id].email == patch.email.GetOr(old(users[id].email))
        && users[id].name == patch.name.GetOr(old(users[id].name))
        && users[id].isActive == old(users[id].isActive)
        && users[id].isStaff == old(users[id].isStaff)
        && users[id].isSuperuser == old(users[id].isSuperuser)
        && (patch.password.None? || patch.password == Some("") ==>
              users[id].password == old(users[id].password))
        && (patch.password.Some? && patch.password.value != "" ==>
              PasswordMatches(users[id].password, patch.password.value))
    {
      var password := patch.password;
      if patch.email.Some? && EmailTakenByOther(id, patch.email.value) {
        return Err(DuplicateEmail);
      }
      var user := users[id];
      if patch.email.Some? {
        user := user.(email := patch.email.value);
      }
      if patch.name.Some? {
        user := user.(name := patch.name.value);
      }
      if password.Some? && password.value != "" {
        user := user.(password := MakePassword(password));
      }
      ReplaceKeepsEmailsUnique(users, id, user);
      users := users[id := user];
      r := Ok(user);
    }

    /**
     * The email field's unique check, run beside the other field checks: a
     * supplied email that another user (any user, when `self` is absent)
     * already holds is an email error.
     */
    function EmailUniqueErrors(email: Option<string>, self: Option<UserId>): (r: set<UserField>)
      reads this
      ensures r <= {EmailField}
      ensures EmailField in r <==>
        email.Some? && (if self.None? then EmailTaken(email.value) else EmailTakenByOther(self.value, email.value))
    {
      if email.Some? && (if self.None? then EmailTaken(email.value) else EmailTakenByOther(self.value, email.value))
      then {EmailField} else {}
    }

    /** A taken email is reported next to a too-short password, not instead of it. */
    lemma TakenEmailReportedWithOthers(patch: UserPatch, self: Option<UserId>, partial: bool)
      requires patch.email.Some? && patch.password.Some?
      requires if self.None? then EmailTaken(Strip(patch.email.value)) else EmailTakenByOther(self.value, Strip(patch.email.value))
      requires |Strip(patch.password.value)| < MinPasswordLength
      ensures {EmailField, PasswordField} <= UserInvalidFields(CleanPatch(patch), partial) + EmailUniqueErrors(CleanPatch(patch).email, self)
    {
      ShortPasswordRejected(patch, partial);
    }

    /**
     * `CreateUserView`: the payload is cleaned and every field is validated,
     * the unique check on the cleaned email included; all failing fields are
     * reported together. Otherwise the serializer creates the user. A
     * validated email is never empty.
     */
    method Register(patch: UserPatch) returns (r: Result<UserId, UserError>)
      requires Valid()
      modifies this`users, this`nextUser
      ensures Valid()
      ensures var bad := UserInvalidFields(CleanPatch(patch), false) + old(EmailUniqueErrors(CleanPatch(patch).email, None));
        bad != {} ==> r == Err(Invalid(bad)) && users == old(users)
      ensures var bad := UserInvalidFields(CleanPatch(patch), false) + old(EmailUniqueErrors(CleanPatch(patch).email, None));
        bad == {} ==>
          && r != Err(MissingEmail)
          && CreatedUser(CleanPatch(patch).email.value, CleanPatch(patch).password,
                         NoExtraFields.(name := CleanPatch(patch).name), r)
    {
      var clean := CleanPatch(patch);
      var bad := UserInvalidFields(clean, false) + EmailUniqueErrors(clean.email, None);
      if bad != {} {
        return Err(Invalid(bad));
      }
      r := RegisterUser(clean.email.value, clean.password.value, clean.name.value);
    }

    /**
     * `ManagerUserView` update: the authenticated user's own record is updated
     * with the cleaned payload once every field validates, the unique check on
     * the email (other users only) included; all failing fields are reported
     * together. A validated password is never empty, so a supplied password is
     * always set.
     */
    method UpdateProfile(caller: Option<UserId>, patch: UserPatch, partial: bool) returns (r: Result<User, UserError>)
      requires Valid() && (caller.Some? ==> caller.value in users)
      modifies this`users
      ensures Valid()
      ensures caller.None? ==> r == Err(NotAuthenticated) && users == old(users)
      ensures caller.Some? ==>
        var bad := UserInvalidFields(CleanPatch(patch), partial) + old(EmailUniqueErrors(CleanPatch(patch).email, caller));
        bad != {} ==> r == Err(Invalid(bad)) && users == old(users)
      ensures caller.Some? ==>
        var bad := UserInvalidFields(CleanPatch(patch), partial) + old(EmailUniqueErrors(CleanPatch(patch).email, caller));
        bad == {} ==>
          && caller.value in users && r == Ok(users[caller.value])
          && users == old(users)[caller.value := users[caller.value]]
          && users[caller.value].email == CleanPatch(patch).email.GetOr(old(users[caller.value].email))
          && users[caller.value].name == CleanPatch(patch).name.GetOr(old(users[caller.value].name))
          && users[caller.value].isActive == old(users[caller.value].isActive)
          && users[caller.value].isStaff == old(users[caller.value].isStaff)
          && users[caller.value].isSuperuser == old(users[caller.value].isSuperuser)
          && (patch.password.None? ==> users[caller.value].password == old(users[caller.value].password))
          && (patch.password.Some? ==> PasswordMatches(users[caller.value].password, Strip(patch.password.value)))
    {
      if caller.None? {
        return Err(NotAuthenticated);
      }
      var clean := CleanPatch(patch);
      var bad := UserInvalidFields(clean, partial) + EmailUniqueErrors(clean.email, caller);
      if bad != {} {
        return Err(Invalid(bad));
      }
      if clean.password.Some? {
        AcceptedPasswordIsNonEmpty(clean.password.value);
      }
      r := UpdateUser(caller.value, clean);
    }
  }
}
