/** The permission classes of the API: three role checks on the requesting
    user and an owner-or-read-only object permission. */
module License {
  import opened Users

  /** HTTP methods that do not change state. */
  const SAFE_METHODS: seq<string> := ["GET", "HEAD", "OPTIONS"]

  /** `IsOwnerProfileOrReadOnly.has_object_permission`: users are compared
      by primary key. */
  function HasObjectPermission(httpMethod: string, objectUser: int, requestUser: int): (allowed: bool)
    ensures objectUser == requestUser ==> allowed
    ensures !allowed ==> httpMethod !in SAFE_METHODS && objectUser != requestUser
  {
    httpMethod in SAFE_METHODS || objectUser == requestUser
  }

  /** `IsUserPatient.has_permission`. */
  function IsUserPatient(role: string): (allowed: bool)
    ensures allowed <==> role == "Patient"
    ensures allowed ==> IsRoleChoice(role)
  {
    role == PATIENT
  }

  /** `IsUserMedic.has_permission`. */
  function IsUserMedic(role: string): (allowed: bool)
    ensures allowed <==> role == "Doctor"
    ensures allowed ==> IsRoleChoice(role)
  {
    role == DOCTOR
  }

  /** `IsUserAdmin.has_permission`. */
  function IsUserAdmin(role: string): (allowed: bool)
    ensures allowed <==> role == "Admin"
    ensures allowed ==> IsRoleChoice(role)
  {
    role == ADMIN
  }

  lemma SafeMethodsAlwaysPermitted(httpMethod: string, objectUser: int, requestUser: int)
    requires httpMethod in SAFE_METHODS
    ensures HasObjectPermission(httpMethod, objectUser, requestUser)
  {
  }

  lemma UnsafeMethodsNeedOwner(httpMethod: string, objectUser: int, requestUser: int)
    requires httpMethod !in SAFE_METHODS
    ensures HasObjectPermission(httpMethod, objectUser, requestUser) <==> objectUser == requestUser
  {
  }

  /** Every role passes at most one of the three checks, and a role passes
      one of them exactly when it is one of the model's role choices. */
  lemma RoleChecksPartitionChoices(role: string)
    ensures !(IsUserPatient(role) && IsUserMedic(role))
    ensures !(IsUserPatient(role) && IsUserAdmin(role))
    ensures !(IsUserMedic(role) && IsUserAdmin(role))
    ensures (IsUserPatient(role) || IsUserMedic(role) || IsUserAdmin(role)) <==> IsRoleChoice(role)
  {
  }

  /** The role a new user is given ("") passes none of the checks. */
  lemma NewUserHasNoRole(username: string, email: string, password: Http.Option<string>)
    ensures var role := Attr(NewUser(username, email, password), "role").s;
      !IsUserPatient(role) && !IsUserMedic(role) && !IsUserAdmin(role)
  {
  }
}
