/**
 * The admin check that guards catalog management and role changes: the caller
 * must be signed in and own a profile whose role is admin.
 */
module RoleGate {
  import opened Wrappers
  import opened Schema

  predicate IsAdmin(db: Db, u: UserId) {
    u in db.profiles && db.profiles[u].role == Admin
  }

  /** The admin caller, or why the caller is refused. */
  function RequireAdmin(db: Db, caller: Option<UserId>): (r: Result<UserId, Error>)
    ensures r.Ok? <==> caller.Some? && IsAdmin(db, caller.value)
    ensures r.Ok? ==> r.value == caller.value
    ensures r == Err(Unauthenticated) <==> caller.None?
    ensures r == Err(NotAdmin) <==> caller.Some? && !IsAdmin(db, caller.value)
  {
    match caller
    case None => Err(Unauthenticated)
    case Some(u) =>
      if u in db.profiles && db.profiles[u].role == Admin then Ok(u) else Err(NotAdmin)
  }
}
