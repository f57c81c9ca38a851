/**
 * accounts/permissions.py: the user endpoint lets anyone register (POST) and requires a
 * signed-in caller for everything else.
 */
module AccountPermissions {
  import opened Http

  /** IsPostOrIsAuthenticated.has_permission; the view plays no part in the decision. */
  function HasPermission(verb: Method, user: Requester): (allowed: bool)
    ensures verb == POST ==> allowed
    ensures verb != POST ==> (allowed <==> user.Member?)
  {
    if verb == POST then true else user.Member?
  }

  /** Anonymous GET, PUT, PATCH and DELETE on the user endpoint are refused with 401. */
  lemma AnonymousReadsAndWritesRefused(verb: Method)
    requires verb != POST
    ensures !HasPermission(verb, Anonymous) && Status(Refusal(Anonymous)) == 401
  {
  }
}

/**
 * boards/permissions.py: anyone may read a post or comment, a signed-in user may create
 * one, and only its owner may change or delete it.
 */
module BoardPermissions {
  import opened Wrappers
  import opened Http

  /** IsOwnerOrReadOnly.has_permission: safe methods always, others for a signed-in user. */
  function HasPermission(verb: Method, user: Requester): (allowed: bool)
    ensures IsSafe(verb) ==> allowed
    ensures !IsSafe(verb) ==> (allowed <==> user.Member?)
  {
    if IsSafe(verb) then true else user.Member?
  }

  /** IsOwnerOrReadOnly.has_object_permission: safe methods always, others for the owner only. */
  function HasObjectPermission(verb: Method, user: Requester, owner: nat): (allowed: bool)
    ensures IsSafe(verb) ==> allowed
    ensures !IsSafe(verb) ==> (allowed <==> user == Member(owner))
  {
    if IsSafe(verb) then true else user == Member(owner)
  }

  /**
   * The framework's checks on a detail view: the view-level permission first, then the
   * object-level one; a refusal becomes 401 or 403 depending on who asked.
   */
  function CheckObjectAccess(verb: Method, user: Requester, owner: nat): (r: Option<ApiError>)
  {
    if !HasPermission(verb, user) then Some(Refusal(user))
    else if !HasObjectPermission(verb, user, owner) then Some(Refusal(user))
    else None
  }

  /**
   * A write to a post or comment goes through exactly for its signed-in owner; an anonymous
   * caller gets 401 and any other user 403. Reads always go through.
   */
  lemma WriteOnlyByOwner(verb: Method, user: Requester, owner: nat)
    ensures IsSafe(verb) ==> CheckObjectAccess(verb, user, owner) == None
    ensures !IsSafe(verb) ==> (CheckObjectAccess(verb, user, owner) == None <==> user == Member(owner))
    ensures !IsSafe(verb) && user.Anonymous? ==> CheckObjectAccess(verb, user, owner) == Some(NotAuthenticated)
    ensures !IsSafe(verb) && user.Member? && user.id != owner ==> CheckObjectAccess(verb, user, owner) == Some(PermissionDenied)
  {
  }
}
