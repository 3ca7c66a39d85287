/** The user accounts of the med application: `UserProfile` rows, their
    role choices and uniqueness rules, and `UserManager.create_user` /
    `create_superuser`. Password hashing is abstracted: a credential keeps
    the secret it was set from, or is unusable. */
module Users {
  import opened Http

  const ADMIN := "Admin"
  const DOCTOR := "Doctor"
  const PATIENT := "Patient"
  const ROLE_CHOICES: seq<string> := [ADMIN, DOCTOR, PATIENT]

  predicate IsRoleChoice(role: string)
  {
    role in ROLE_CHOICES
  }

  /** `set_password(p)` stores a hash of `p`; `set_password(None)` stores an
      unusable password that no attempt matches. */
  datatype Credential = Unusable | Secret(password: string)

  /** A user row: its attributes by name (as `setattr` sees them) and its
      password credential. */
  datatype UserProfile = UserProfile(attrs: map<string, Value>, credential: Credential)

  function Attr(u: UserProfile, key: string): Value
  {
    if key in u.attrs then u.attrs[key] else Null
  }

  /** The value stored under `key` by some user other than the one at
      index `except`. */
  predicate TakenByOther(users: seq<UserProfile>, key: string, v: Value, except: int)
  {
    exists j :: 0 <= j < |users| && j != except && Attr(users[j], key) == v
  }

  /** Usernames and emails are text and no two users share either. */
  ghost predicate UniqueAccounts(users: seq<UserProfile>)
  {
    && (forall i :: 0 <= i < |users| ==> Attr(users[i], "username").Str? && Attr(users[i], "email").Str?)
    && (forall i, j :: 0 <= i < j < |users| ==>
          Attr(users[i], "username") != Attr(users[j], "username") &&
          Attr(users[i], "email") != Attr(users[j], "email"))
  }

  function CredentialFrom(password: Option<string>): Credential
  {
    if password.Some? then Secret(password.value) else Unusable
  }

  /** The row `create_user` saves: the model defaults `is_active = True`,
      `is_staff = False`, `is_superuser = False` and an empty role. */
  function NewUser(username: string, email: string, password: Option<string>): (u: UserProfile)
    ensures Attr(u, "username") == Str(username) && Attr(u, "email") == Str(email)
    ensures u.credential.Secret? <==> password.Some?
    ensures password.Some? ==> u.credential == Secret(password.value)
  {
    UserProfile(
      map["username" := Str(username), "email" := Str(email), "role" := Str(""),
          "is_active" := Bool(true), "is_staff" := Bool(false), "is_superuser" := Bool(false)],
      CredentialFrom(password))
  }

  lemma NewUserFlags(username: string, email: string, password: Option<string>)
    ensures Attr(NewUser(username, email, password), "is_active") == Bool(true)
    ensures Attr(NewUser(username, email, password), "is_staff") == Bool(false)
    ensures Attr(NewUser(username, email, password), "is_superuser") == Bool(false)
    ensures Attr(NewUser(username, email, password), "role") == Str("")
    ensures password.None? ==> NewUser(username, email, password).credential == Unusable
  {
  }

  /** The second save of `create_superuser`: both staff flags set, every
      other attribute and the credential kept. */
  function Promoted(u: UserProfile): (p: UserProfile)
    ensures Attr(p, "is_superuser") == Bool(true) && Attr(p, "is_staff") == Bool(true)
    ensures forall k :: k != "is_superuser" && k != "is_staff" ==> Attr(p, k) == Attr(u, k)
    ensures p.credential == u.credential
  {
    u.(attrs := u.attrs["is_superuser" := Bool(true)]["is_staff" := Bool(true)])
  }

  datatype UserError = UsernameRequired | EmailRequired | PasswordRequired | AlreadyExists

  datatype Outcome = Made(id: nat) | Refused(error: UserError)

  /** The user table, with `UserManager`'s two constructors. */
  class UserStore {
    var users: seq<UserProfile>

    ghost predicate Valid()
      reads this
    {
      UniqueAccounts(users)
    }

    constructor ()
      ensures Valid() && users == []
    {
      users := [];
    }

    /** `create_user`: a missing username, then a missing email, raises
        before anything is built; a username or email already in use makes
        the save fail; otherwise the new row is appended. */
    method CreateUser(username: Option<string>, email: Option<string>, password: Option<string>)
      returns (outcome: Outcome)
      requires Valid()
      modifies this
      ensures Valid()
      ensures username.None? ==> outcome == Refused(UsernameRequired) && users == old(users)
      ensures username.Some? && email.None? ==> outcome == Refused(EmailRequired) && users == old(users)
      ensures username.Some? && email.Some? &&
              (TakenByOther(old(users), "username", Str(username.value), -1) ||
               TakenByOther(old(users), "email", Str(email.value), -1)) ==>
        outcome == Refused(AlreadyExists) && users == old(users)
      ensures username.Some? && email.Some? &&
              !TakenByOther(old(users), "username", Str(username.value), -1) &&
              !TakenByOther(old(users), "email", Str(email.value), -1) ==>
        outcome == Made(|old(users)|) &&
        users == old(users) + [NewUser(username.value, email.value, password)]
    {
      if username.None? {
        return Refused(UsernameRequired);
      }
      if email.None? {
        return Refused(EmailRequired);
      }
      if TakenByOther(users, "username", Str(username.value), -1) ||
         TakenByOther(users, "email", Str(email.value), -1) {
        // the unique indexes refuse the save
        return Refused(AlreadyExists);
      }
      users := users + [NewUser(username.value, email.value, password)];
      outcome := Made(|users| - 1);
    }

    /** `create_superuser`: a missing password raises before any user is
        created; otherwise `create_user` runs and the new row is saved again
        with `is_superuser` and `is_staff` set. */
    method CreateSuperuser(username: Option<string>, email: Option<string>, password: Option<string>)
      returns (outcome: Outcome)
      requires Valid()
      modifies this
      ensures Valid()
      ensures password.None? ==> outcome == Refused(PasswordRequired) && users == old(users)
      ensures password.Some? && username.None? ==> outcome == Refused(UsernameRequired)
      ensures password.Some? && username.Some? && email.None? ==> outcome == Refused(EmailRequired)
      ensures password.Some? && username.Some? && email.Some? &&
              (TakenByOther(old(users), "username", Str(username.value), -1) ||
               TakenByOther(old(users), "email", Str(email.value), -1)) ==>
        outcome == Refused(AlreadyExists)
      ensures outcome.Refused? ==> users == old(users)
      ensures outcome.Made? ==>
        && password.Some? && username.Some? && email.Some?
        && outcome.id == |old(users)|
        && users == old(users) + [Promoted(NewUser(username.value, email.value, password))]
        && users[..outcome.id] == old(users)
        && users[outcome.id].credential == Secret(password.value)
        && Attr(users[outcome.id], "username") == Str(username.value)
        && Attr(users[outcome.id], "email") == Str(email.value)
        && Attr(users[outcome.id], "is_active") == Bool(true)
        && Attr(users[outcome.id], "is_superuser") == Bool(true)
        && Attr(users[outcome.id], "is_staff") == Bool(true)
      ensures password.Some? && username.Some? && email.Some? &&
              !TakenByOther(old(users), "username", Str(username.value), -1) &&
              !TakenByOther(old(users), "email", Str(email.value), -1) ==>
        outcome.Made?
    {
      if password.None? {
        return Refused(PasswordRequired);
      }
      outcome := CreateUser(username, email, password);
      if outcome.Refused? {
        return outcome;
      }
      users := users[outcome.id := Promoted(users[outcome.id])];
      assert forall i :: 0 <= i < |users| && i != outcome.id ==> users[i] == old(users)[i];
    }
  }
}
