/** The user serializers: the password and role bounds checked at
    registration and update, the login validation chain, and the update
    methods that copy validated data onto a row with `setattr`. */
module Serializers {
  import opened Http
  import opened Users

  const PASSWORD_MIN_LENGTH := 8
  const PASSWORD_MAX_LENGTH := 128

  /** The bounds the password `CharField` puts on registration and update. */
  predicate PasswordAccepted(v: Value)
  {
    v.Str? && PASSWORD_MIN_LENGTH <= |v.s| <= PASSWORD_MAX_LENGTH
  }

  /** The `choices` of the `role` column. */
  predicate RoleAccepted(v: Value)
  {
    v.Str? && IsRoleChoice(v.s)
  }

  /** Registration data passes validation: username, email, password and
      role are required; the password must be within bounds, the role one of
      the choices, and the username and email, which are unique columns,
      nobody's yet. */
  function RegistrationAccepted(users: seq<UserProfile>, data: map<string, Value>): (ok: bool)
    ensures ok ==> {"username", "email", "password", "role"} <= data.Keys
    ensures ok ==> data["password"].Str? && PASSWORD_MIN_LENGTH <= |data["password"].s| <= PASSWORD_MAX_LENGTH
    ensures ok ==> data["role"].Str? && IsRoleChoice(data["role"].s)
    ensures ok ==> forall j :: 0 <= j < |users| ==>
      Attr(users[j], "username") != data["username"] && Attr(users[j], "email") != data["email"]
  {
    && "username" in data && data["username"].Str? && !TakenByOther(users, "username", data["username"], -1)
    && "email" in data && data["email"].Str? && !TakenByOther(users, "email", data["email"], -1)
    && "password" in data && PasswordAccepted(data["password"])
    && "role" in data && RoleAccepted(data["role"])
  }

  /** Update data passes validation: the fields it carries are within their
      bounds, and a new username or email is not another user's. */
  function UpdateAccepted(users: seq<UserProfile>, i: int, data: map<string, Value>): (ok: bool)
    ensures data == map[] ==> ok
    ensures ok && "password" in data ==>
      data["password"].Str? && PASSWORD_MIN_LENGTH <= |data["password"].s| <= PASSWORD_MAX_LENGTH
    ensures ok && "email" in data ==>
      forall j :: 0 <= j < |users| && j != i ==> Attr(users[j], "email") != data["email"]
  {
    && ("password" in data ==> PasswordAccepted(data["password"]))
    && ("role" in data ==> RoleAccepted(data["role"]))
    && ("username" in data ==> data["username"].Str? && !TakenByOther(users, "username", data["username"], i))
    && ("email" in data ==> data["email"].Str? && !TakenByOther(users, "email", data["email"], i))
  }

  /** A password shorter than 8 or longer than 128 characters fails both
      registration and update. */
  lemma PasswordOutOfBoundsRejected(users: seq<UserProfile>, i: int, data: map<string, Value>)
    requires "password" in data && data["password"].Str?
    requires |data["password"].s| < 8 || |data["password"].s| > 128
    ensures !RegistrationAccepted(users, data) && !UpdateAccepted(users, i, data)
  {
  }

  /** A role other than Admin, Doctor or Patient fails both registration and
      update. */
  lemma RoleOutsideChoicesRejected(users: seq<UserProfile>, i: int, data: map<string, Value>)
    requires "role" in data && data["role"].Str?
    requires data["role"].s != "Admin" && data["role"].s != "Doctor" && data["role"].s != "Patient"
    ensures !RegistrationAccepted(users, data) && !UpdateAccepted(users, i, data)
  {
  }

  /** Registration data the serializer accepts is data `create_user` saves:
      appending the new user keeps usernames and emails unique. */
  lemma AcceptedRegistrationKeepsAccountsUnique(users: seq<UserProfile>, data: map<string, Value>)
    requires UniqueAccounts(users)
    requires RegistrationAccepted(users, data)
    ensures UniqueAccounts(users + [NewUser(data["username"].s, data["email"].s, Some(data["password"].s))])
  {
    var u := NewUser(data["username"].s, data["email"].s, Some(data["password"].s));
    var after := users + [u];
    forall i, j | 0 <= i < j < |after|
      ensures Attr(after[i], "username") != Attr(after[j], "username")
      ensures Attr(after[i], "email") != Attr(after[j], "email")
    {
      if j == |users| {
        assert after[i] == users[i] && after[j] == u;
      } else {
        assert after[i] == users[i] && after[j] == users[j];
      }
    }
  }

  // ---------------------------------------------------------------- login

  datatype LoginError = NoEmail | NoPassword | NoMatchingUser | Deactivated

  /** The token a user row hands out; its encoding is not modelled. */
  datatype Token = TokenOf(user: nat)

  datatype Login = LoggedIn(email: Value, token: Token, role: Value) | Rejected(error: LoginError)

  /** The email is the login name; the password must equal the secret the
      credential was set from. */
  predicate Matches(u: UserProfile, email: string, password: string)
  {
    Attr(u, "email") == Str(email) && u.credential == Secret(password)
  }

  /** The default backend's `user_can_authenticate`: an active user, or one
      with no `is_active` attribute at all. */
  predicate CanAuthenticate(u: UserProfile)
  {
    Truthy(Attr(u, "is_active")) || Attr(u, "is_active") == Null
  }

  /** Whether `authenticate` hands back this user. `refusesInactive` says
      whether the configured backend applies `user_can_authenticate`;
      the backend is chosen by settings outside this model. */
  predicate Accepts(u: UserProfile, email: string, password: string, refusesInactive: bool)
  {
    Matches(u, email, password) && (refusesInactive ==> CanAuthenticate(u))
  }

  /** `authenticate`: the first user at or after `from` the backend
      accepts. */
  function AuthenticateFrom(users: seq<UserProfile>, email: string, password: string,
                            refusesInactive: bool, from: nat): (r: Option<nat>)
    requires from <= |users|
    ensures r.Some? ==> from <= r.value < |users| && Accepts(users[r.value], email, password, refusesInactive)
    ensures r.Some? ==> forall j :: from <= j < r.value ==> !Accepts(users[j], email, password, refusesInactive)
    ensures r.None? ==> forall j :: from <= j < |users| ==> !Accepts(users[j], email, password, refusesInactive)
    decreases |users| - from
  {
    if from == |users| then None
    else if Accepts(users[from], email, password, refusesInactive) then Some(from)
    else AuthenticateFrom(users, email, password, refusesInactive, from + 1)
  }

  function Authenticate(users: seq<UserProfile>, email: string, password: string, refusesInactive: bool): (r: Option<nat>)
    ensures r.Some? ==> r.value < |users| && Matches(users[r.value], email, password)
    ensures r.Some? && refusesInactive ==> CanAuthenticate(users[r.value])
    ensures r.None? ==> forall j :: 0 <= j < |users| ==> !Accepts(users[j], email, password, refusesInactive)
  {
    AuthenticateFrom(users, email, password, refusesInactive, 0)
  }

  /** With unique emails, the user `authenticate` finds is the only one
      that matches, and if the backend refuses that one nobody is found. */
  lemma AuthenticateFindsTheMatch(users: seq<UserProfile>, i: nat, email: string, password: string, refusesInactive: bool)
    requires UniqueAccounts(users)
    requires i < |users| && Matches(users[i], email, password)
    ensures Authenticate(users, email, password, refusesInactive) ==
      if Accepts(users[i], email, password, refusesInactive) then Some(i) else None
  {
  }

  /** `LoginSerializer.validate`. On success it returns exactly the found
      user's email, token and role. */
  function LoginValidate(users: seq<UserProfile>, refusesInactive: bool,
                         email: Option<string>, password: Option<string>): (r: Login)
    ensures r.LoggedIn? ==>
      && email.Some? && password.Some?
      && exists i :: 0 <= i < |users| && Matches(users[i], email.value, password.value) &&
           Truthy(Attr(users[i], "is_active")) &&
           r == LoggedIn(Attr(users[i], "email"), TokenOf(i), Attr(users[i], "role"))
  {
    if email.None? then Rejected(NoEmail)
    else if password.None? then Rejected(NoPassword)
    else match Authenticate(users, email.value, password.value, refusesInactive)
      case None => Rejected(NoMatchingUser)
      case Some(i) =>
        if !Truthy(Attr(users[i], "is_active")) then Rejected(Deactivated)
        else LoggedIn(Attr(users[i], "email"), TokenOf(i), Attr(users[i], "role"))
  }

  /** A missing email is reported first, a missing password next. */
  lemma LoginChecksPresenceFirst(users: seq<UserProfile>, refusesInactive: bool,
                                 email: Option<string>, password: Option<string>)
    ensures email.None? ==> LoginValidate(users, refusesInactive, email, password) == Rejected(NoEmail)
    ensures email.Some? && password.None? ==>
      LoginValidate(users, refusesInactive, email, password) == Rejected(NoPassword)
  {
  }

  lemma LoginWithoutMatchRejected(users: seq<UserProfile>, refusesInactive: bool, email: string, password: string)
    requires forall j :: 0 <= j < |users| ==> !Matches(users[j], email, password)
    ensures LoginValidate(users, refusesInactive, Some(email), Some(password)) == Rejected(NoMatchingUser)
  {
  }

  /** A deactivated user is refused even with the right password: by the
      serializer's own check, or, when the backend refuses them first, as
      if no user matched. */
  lemma DeactivatedUserRejected(users: seq<UserProfile>, refusesInactive: bool, i: nat, email: string, password: string)
    requires UniqueAccounts(users)
    requires i < |users| && Matches(users[i], email, password)
    requires !Truthy(Attr(users[i], "is_active"))
    ensures LoginValidate(users, refusesInactive, Some(email), Some(password)) ==
      Rejected(if refusesInactive && !CanAuthenticate(users[i]) then NoMatchingUser else Deactivated)
  {
    AuthenticateFindsTheMatch(users, i, email, password, refusesInactive);
  }

  /** An active user with the right password logs in, whichever backend is
      configured, and gets back their own email, token and role. */
  lemma ActiveUserLogsIn(users: seq<UserProfile>, refusesInactive: bool, i: nat, email: string, password: string)
    requires UniqueAccounts(users)
    requires i < |users| && Matches(users[i], email, password)
    requires Truthy(Attr(users[i], "is_active"))
    ensures LoginValidate(users, refusesInactive, Some(email), Some(password)) ==
      LoggedIn(Str(email), TokenOf(i), Attr(users[i], "role"))
  {
    AuthenticateFindsTheMatch(users, i, email, password, refusesInactive);
  }

  /** A user made by `create_user` without a password can never log in. */
  lemma UnusablePasswordNeverLogsIn(users: seq<UserProfile>, refusesInactive: bool, email: string, password: string)
    requires forall j :: 0 <= j < |users| ==> users[j].credential == Unusable
    ensures LoginValidate(users, refusesInactive, Some(email), Some(password)).Rejected?
  {
  }

  // --------------------------------------------------------------- update

  /** The `for key, value in validated_data.items(): setattr(...)` loop of
      the user and profile serializers' `update`. */
  method SetAttrs(attrs: map<string, Value>, data: map<string, Value>) returns (r: map<string, Value>)
    ensures r.Keys == attrs.Keys + data.Keys
    ensures forall k :: k in data ==> r[k] == data[k]
    ensures forall k :: k in attrs && k !in data ==> r[k] == attrs[k]
    ensures r == attrs + data
  {
    r := attrs;
    var rest := data.Keys;
    while rest != {}
      invariant rest <= data.Keys
      invariant forall k :: k in r <==> k in attrs || (k in data && k !in rest)
      invariant forall k :: k in data && k !in rest ==> r[k] == data[k]
      invariant forall k :: k in attrs && (k !in data || k in rest) ==> r[k] == attrs[k]
      decreases |rest|
    {
      var k :| k in rest;
      r := r[k := data[k]];
      rest := rest - {k};
    }
    OverrideByPoints(attrs, data, r);
  }

  /** A map that agrees key by key with `attrs + data` is `attrs + data`. */
  lemma OverrideByPoints(attrs: map<string, Value>, data: map<string, Value>, r: map<string, Value>)
    requires forall k :: k in r <==> k in attrs || k in data
    requires forall k :: k in data ==> r[k] == data[k]
    requires forall k :: k in attrs && k !in data ==> r[k] == attrs[k]
    ensures r.Keys == attrs.Keys + data.Keys
    ensures r == attrs + data
  {
  }

  /** `UserSerializer.update` on the user at index `i`: invalid data is
      refused with nothing written; otherwise the password is taken out of
      the data, every other key is copied onto the row, and the credential
      is reset only when the password given is truthy. */
  method UpdateUser(store: UserStore, i: nat, data: map<string, Value>) returns (status: Status)
    requires store.Valid() && i < |store.users|
    modifies store
    ensures store.Valid()
    ensures !UpdateAccepted(old(store.users), i, data) ==>
      status == BadRequest400 && store.users == old(store.users)
    ensures UpdateAccepted(old(store.users), i, data) ==>
      && status == Ok200
      && |store.users| == |old(store.users)|
      && (forall j :: 0 <= j < |store.users| && j != i ==> store.users[j] == old(store.users)[j])
      && store.users[i].attrs == old(store.users)[i].attrs + (data - {"password"})
      && ("password" in data && Truthy(data["password"]) ==>
            store.users[i].credential == Secret(data["password"].s))
      && (!("password" in data && Truthy(data["password"])) ==>
            store.users[i].credential == old(store.users)[i].credential)
  {
    if !UpdateAccepted(store.users, i, data) {
      return BadRequest400;
    }
    var password := if "password" in data then data["password"] else Null;
    var attrs := SetAttrs(store.users[i].attrs, data - {"password"});
    var credential := if Truthy(password) then Secret(password.s) else store.users[i].credential;
    ghost var before := store.users;
    store.users := store.users[i := UserProfile(attrs, credential)];
    UpdateKeepsAccountsUnique(before, i, data, store.users);
    status := Ok200;
  }

  lemma UpdateKeepsAccountsUnique(before: seq<UserProfile>, i: nat, data: map<string, Value>, after: seq<UserProfile>)
    requires UniqueAccounts(before) && i < |before|
    requires UpdateAccepted(before, i, data)
    requires |after| == |before|
    requires forall j :: 0 <= j < |after| && j != i ==> after[j] == before[j]
    requires after[i].attrs == before[i].attrs + (data - {"password"})
    ensures UniqueAccounts(after)
  {
    forall key | key == "username" || key == "email"
      ensures Attr(after[i], key).Str?
      ensures forall j :: 0 <= j < |after| && j != i ==> Attr(after[j], key) != Attr(after[i], key)
    {
      if key in data {
        assert Attr(after[i], key) == data[key];
      } else {
        assert Attr(after[i], key) == Attr(before[i], key);
      }
    }
  }

  /** The password key is never copied onto the row: whatever the data
      holds, the row keeps its own `password` attribute. */
  lemma PasswordNeverSetByAttribute(attrs: map<string, Value>, data: map<string, Value>)
    ensures Attr(UserProfile(attrs + (data - {"password"}), Unusable), "password") ==
            Attr(UserProfile(attrs, Unusable), "password")
  {
  }
}
