/**
 * The profile lifecycle: reading the caller's user record and profile,
 * creating a profile on first sign-in, the admin-only role change, and the
 * caller's referral code.
 */
module Users {
  import opened Wrappers
  import opened Schema
  import opened RoleGate

  /** What `getMyUserProfile` returns: the user record with the profile, which may be missing. */
  datatype UserView = UserView(user: User, profile: Option<Profile>)

  /** `getMyUserProfile`: nothing for an anonymous caller or a missing user record. */
  function GetMyUserProfile(db: Db, caller: Option<UserId>): (r: Option<UserView>)
    ensures r.None? <==> caller.None? || caller.value !in db.users
    ensures r.Some? ==> r.value.user == db.users[caller.value]
    ensures r.Some? ==> (r.value.profile.Some? <==> caller.value in db.profiles)
    ensures r.Some? && r.value.profile.Some? ==> r.value.profile.value == db.profiles[caller.value]
  {
    match caller
    case None => None
    case Some(u) =>
      if u !in db.users then None
      else Some(UserView(db.users[u], if u in db.profiles then Some(db.profiles[u]) else None))
  }

  /**
   * `ensureUserProfile`: returns the caller's profile, creating it on the first
   * call with no points, the requested role (student when none is given) and
   * the referral code `referralCode`, which stands in for the random token.
   */
  function EnsureUserProfile(db: Db, caller: Option<UserId>, role: Option<Role>, referralCode: string): (out: Step<Result<Profile, Error>>)
    ensures out.result.Err? <==> caller.None?
    ensures out.result.Err? ==> out == Step(db, Err(Unauthenticated))
    ensures caller.Some? && caller.value in db.profiles ==> out == Step(db, Ok(db.profiles[caller.value]))
    ensures caller.Some? && caller.value !in db.profiles ==>
      && out.result.Ok?
      && out.result.value.userId == caller.value
      && out.result.value.points == 0
      && out.result.value.role == (if role.Some? then role.value else Student)
      && out.result.value.referralCode == Some(referralCode)
      && out.db.profiles == db.profiles[caller.value := out.result.value]
    ensures caller.Some? ==> out.db.profiles.Keys == db.profiles.Keys + {caller.value}
    ensures forall v :: v in db.profiles ==> v in out.db.profiles && out.db.profiles[v] == db.profiles[v]
    ensures out.db.tasks == db.tasks && out.db.ledger == db.ledger && out.db.users == db.users
  {
    match caller
    case None => Step(db, Err(Unauthenticated))
    case Some(u) =>
      if u in db.profiles then Step(db, Ok(db.profiles[u]))
      else
        var p := Profile(u, role.GetOr(Student), 0, Some(referralCode));
        Step(db.(profiles := db.profiles[u := p]), Ok(p))
  }

  /** Calling `ensureUserProfile` again returns the same profile and changes nothing, whatever role and code it is given. */
  lemma EnsureUserProfileIdempotent(db: Db, u: UserId, role1: Option<Role>, code1: string, role2: Option<Role>, code2: string)
    ensures var first := EnsureUserProfile(db, Some(u), role1, code1);
      EnsureUserProfile(first.db, Some(u), role2, code2) == Step(first.db, first.result)
  {
  }

  /** The role as the source spells it. */
  function RoleName(role: Role): string {
    match role
    case Student => "student"
    case Recruiter => "recruiter"
    case Admin => "admin"
  }

  /**
   * `adminUpdateUserRole`: an admin sets the role of the target's profile;
   * points, referral codes and every other profile stay as they are.
   */
  function AdminUpdateUserRole(db: Db, caller: Option<UserId>, target: UserId, newRole: Role): (out: Step<Result<string, Error>>)
    ensures out.result.Err? ==> out.db == db
    ensures out.result == Err(Unauthenticated) <==> caller.None?
    ensures out.result == Err(NotAdmin) <==> caller.Some? && !IsAdmin(db, caller.value)
    ensures out.result == Err(TargetProfileNotFound) <==>
      caller.Some? && IsAdmin(db, caller.value) && target !in db.profiles
    ensures out.result.Ok? <==> caller.Some? && IsAdmin(db, caller.value) && target in db.profiles
    ensures out.result.Ok? ==>
      && out.result.value == "User role updated to " + RoleName(newRole)
      && target in db.profiles
      && out.db.profiles.Keys == db.profiles.Keys
      && out.db.profiles[target].role == newRole
      && out.db.profiles[target].points == db.profiles[target].points
      && out.db.profiles[target].referralCode == db.profiles[target].referralCode
      && out.db.profiles[target].userId == db.profiles[target].userId
      && (forall v :: v in db.profiles && v != target ==> out.db.profiles[v] == db.profiles[v])
      && out.db.tasks == db.tasks && out.db.ledger == db.ledger && out.db.users == db.users
  {
    match RequireAdmin(db, caller)
    case Err(e) => Step(db, Err(e))
    case Ok(_) =>
      if target !in db.profiles then Step(db, Err(TargetProfileNotFound))
      else
        var p := db.profiles[target];
        Step(db.(profiles := db.profiles[target := p.(role := newRole)]), Ok("User role updated to " + RoleName(newRole)))
  }

  /** `getMyReferralCode`: the caller's code, or nothing when there is no caller, profile or code. */
  function GetMyReferralCode(db: Db, caller: Option<UserId>): (r: Option<string>)
    ensures r.Some? <==>
      caller.Some? && caller.value in db.profiles && db.profiles[caller.value].referralCode.Some?
    ensures r.Some? ==> r.value == db.profiles[caller.value].referralCode.value
  {
    match caller
    case None => None
    case Some(u) => if u in db.profiles then db.profiles[u].referralCode else None
  }

  /** A profile created by `ensureUserProfile` carries a referral code the caller can read back. */
  lemma NewProfileHasReferralCode(db: Db, u: UserId, role: Option<Role>, code: string)
    requires u !in db.profiles
    ensures GetMyReferralCode(EnsureUserProfile(db, Some(u), role, code).db, Some(u)) == Some(code)
  {
  }
}
