/**
 * The role allow-lists src/route/order.route.js attaches to each order route, and what the
 * guard then decides for a caller whose token verifies.
 */
module OrderRoutes {
  import opened Wrappers
  import opened RoleGuard

  datatype Route = CreateOrder | ListOrders | GetOrder | UpdateOrder | DeleteOrder

  /** The roles passed to `roleMiddleware` on each route, or `None` for a route without a guard. */
  function AllowList(route: Route): Option<seq<string>> {
    match route
    case CreateOrder => Some(["admin", "seller", "user"])
    case ListOrders => Some(["admin"])
    case GetOrder => None
    case UpdateOrder => Some(["admin", "seller", "superadmin"])
    case DeleteOrder => Some(["admin", "seller", "user"])
  }

  /** Whether a caller with `role` reaches the handler of `route`. */
  predicate Reaches(route: Route, role: Option<string>) {
    AllowList(route).None? || Includes(AllowList(route).value, role)
  }

  /** Each route's verdict for each of the four roles of the user table. */
  lemma AllowLists()
    ensures Reaches(CreateOrder, Some("admin")) && Reaches(CreateOrder, Some("seller")) && Reaches(CreateOrder, Some("user"))
    ensures !Reaches(CreateOrder, Some("superadmin"))
    ensures Reaches(ListOrders, Some("admin"))
    ensures !Reaches(ListOrders, Some("seller")) && !Reaches(ListOrders, Some("user")) && !Reaches(ListOrders, Some("superadmin"))
    ensures forall role :: Reaches(GetOrder, role)
    ensures Reaches(UpdateOrder, Some("admin")) && Reaches(UpdateOrder, Some("seller")) && Reaches(UpdateOrder, Some("superadmin"))
    ensures !Reaches(UpdateOrder, Some("user"))
    ensures Reaches(DeleteOrder, Some("admin")) && Reaches(DeleteOrder, Some("seller")) && Reaches(DeleteOrder, Some("user"))
    ensures !Reaches(DeleteOrder, Some("superadmin"))
  {
  }

  /**
   * What each role reaches: an admin every route, a superadmin only get-by-id and update, a
   * user all but list and update.
   */
  lemma ReachByRole(role: string)
    ensures role == "admin" ==> forall r :: Reaches(r, Some(role))
    ensures role == "superadmin" ==> (forall r :: Reaches(r, Some(role)) <==> r == GetOrder || r == UpdateOrder)
    ensures role == "user" ==> (forall r :: Reaches(r, Some(role)) <==> r != ListOrders && r != UpdateOrder)
  {
    if role == "superadmin" {
      forall r ensures Reaches(r, Some(role)) <==> r == GetOrder || r == UpdateOrder {
        assert "superadmin" != "admin" && "superadmin" != "seller" && "superadmin" != "user";
      }
    }
  }

  /**
   * On a guarded route, a token that verifies passes exactly when its role is on the list,
   * and the request then carries the token's `id` and `role`.
   */
  lemma GuardMatchesAllowList(route: Route, header: Option<string>, verify: string -> Option<Claims>)
    requires AllowList(route).Some?
    requires BearerToken(header).Some? && verify(BearerToken(header).value).Some?
    ensures Decide(AllowList(route).value, header, verify).Allow? <==> Reaches(route, verify(BearerToken(header).value).value.role)
    ensures Decide(AllowList(route).value, header, verify).Allow? ==>
      Decide(AllowList(route).value, header, verify).claims == verify(BearerToken(header).value).value
  {
  }
}
