/** The permission predicates of the API: author/admin/read-only on recipes and the guard on `me`. */
module Permissions {
  import opened Base

  /** The read-only methods GET, HEAD and OPTIONS. */
  predicate IsSafe(m: HttpMethod) {
    m == Get || m == Head || m == Options
  }

  /**
   * Object permission on a recipe: reading is always allowed; changing it is allowed to an
   * authenticated superuser or to its author, and to nobody else.
   */
  function HasObjectPermission(m: HttpMethod, p: Principal, objAuthor: UserId): (r: bool)
    ensures IsSafe(m) ==> r
    ensures !IsSafe(m) && p.Anonymous? ==> !r
    ensures !IsSafe(m) && p.Authenticated? && p.isSuperuser ==> r
    ensures !IsSafe(m) && p.Authenticated? && p.id == objAuthor ==> r
    ensures !IsSafe(m) && p.Authenticated? && !p.isSuperuser && p.id != objAuthor ==> !r
  {
    IsSafe(m) || (p.Authenticated? && (p.isSuperuser || p.id == objAuthor))
  }

  /** The action name the guard singles out. */
  const MeAction: string := "me"

  /**
   * View permission of the user endpoints: an anonymous request for the `me` action is refused
   * before anything else is consulted; otherwise the inherited permission classes decide,
   * whose verdict is `inherited`.
   */
  function HasPermission(p: Principal, action: string, inherited: bool): (r: bool)
    ensures p.Anonymous? && action == MeAction ==> !r
    ensures p.Authenticated? || action != MeAction ==> r == inherited
  {
    if p.Anonymous? && action == MeAction then false else inherited
  }
}
