/**
 * The two role predicates of clothes/permissions.py and the permission classes
 * each cart and order handler of clothes/views.py is declared with.
 */
module Permissions {
  import Shop

  /** The user attached to a request: anonymous, or an account with its role. */
  datatype Principal = Anonymous | Authenticated(role: string)

  predicate IsAuthenticated(p: Principal) {
    p.Authenticated?
  }

  /** `IsAdmin.has_permission`. */
  predicate IsAdmin(p: Principal) {
    p.Authenticated? && p.role == Shop.AdminRole
  }

  /** `IsUser.has_permission`. */
  predicate IsUser(p: Principal) {
    p.Authenticated? && p.role == Shop.UserRole
  }

  datatype Endpoint =
    | AddToCart
    | RemoveFromCart
    | ChangeProductQuantity
    | CreateOrder
    | CancelOrder
    | RateProduct

  /**
   * `remove_from_cart` is declared with `IsAuthenticated` alone; the other
   * handlers with `IsAuthenticated, IsUser`.
   */
  predicate Permitted(e: Endpoint, p: Principal) {
    IsAuthenticated(p) && (e == RemoveFromCart || IsUser(p))
  }

  /** Each predicate grants exactly the authenticated principals of its role. */
  lemma RoleGrants(p: Principal)
    ensures IsAdmin(p) <==> p == Authenticated(Shop.AdminRole)
    ensures IsUser(p) <==> p == Authenticated(Shop.UserRole)
  {
  }

  /** An unauthenticated request is refused by both predicates and by every handler. */
  lemma AnonymousDenied(e: Endpoint)
    ensures !IsAdmin(Anonymous) && !IsUser(Anonymous)
    ensures !Permitted(e, Anonymous)
  {
  }

  /** A role holds one value, so no request satisfies both predicates. */
  lemma RolesExclusive(p: Principal)
    ensures !(IsAdmin(p) && IsUser(p))
  {
  }

  /** An administrator reaches only `remove_from_cart`; a user reaches every handler. */
  lemma AdminReach(e: Endpoint, p: Principal)
    ensures IsAdmin(p) ==> (Permitted(e, p) <==> e == RemoveFromCart)
    ensures IsUser(p) ==> Permitted(e, p)
  {
  }
}
