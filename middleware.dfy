/** The route gates (src/Middleware.ts).

    Each gate looks at the session user, and for the ownership gates at one
    stored record, and either passes the request on (`next()`) or flashes an
    error and redirects.  A gate that dereferences a missing record throws
    instead; the model returns `Throws` there.  Identifiers and their string
    forms are the same thing here, so `a.toString() === b.toString()` is
    `a == b`.
 */
module Middleware {
  import opened Docs
  import opened DocStore
  import opened Catalog

  /** The user stored in the session at login. */
  datatype SessionUser = SessionUser(id: Id, role: string, supplierId: Option<Id>)

  /** What a gate does with the request. */
  datatype Decision = Next | Redirect(flash: string, location: string) | Throws

  const ADMINISTRATOR := "administrator"
  const SUPPLIER := "supplier"
  const CUSTOMER := "customer"

  const LOGIN_FLASH := "Please login to do that action."
  const NO_PERMISSION := "You do not have permission to do that action"
  const EMPTY_CART := "You do not have any items in your cart."

  /** `Middleware.unauthenticated`: back to the login page. */
  const UNAUTHENTICATED := Redirect(LOGIN_FLASH, "/session/login")

  /** The common refusal: back to the home page. */
  const DENIED := Redirect(NO_PERMISSION, "/")

  /** The refusal of `hasItemsInCart`: back to the store. */
  const CART_EMPTY := Redirect(EMPTY_CART, "/store")

  /** `isAdmin` */
  function IsAdmin(user: Option<SessionUser>): (d: Decision)
    ensures user.None? <==> d == UNAUTHENTICATED
    ensures d == Next <==> user.Some? && user.value.role == ADMINISTRATOR
    ensures d == Next || d == UNAUTHENTICATED || d == DENIED
  {
    if user.None? then UNAUTHENTICATED
    else if user.value.role == ADMINISTRATOR then Next
    else DENIED
  }

  /** `isSupplierOrAdmin` */
  function IsSupplierOrAdmin(user: Option<SessionUser>): (d: Decision)
    ensures user.None? <==> d == UNAUTHENTICATED
    ensures d == Next <==> user.Some? && user.value.role in {SUPPLIER, ADMINISTRATOR}
    ensures d == Next || d == UNAUTHENTICATED || d == DENIED
  {
    if user.None? then UNAUTHENTICATED
    else if user.value.role == SUPPLIER || user.value.role == ADMINISTRATOR then Next
    else DENIED
  }

  /** `isCustomerOrAdmin` */
  function IsCustomerOrAdmin(user: Option<SessionUser>): (d: Decision)
    ensures user.None? <==> d == UNAUTHENTICATED
    ensures d == Next <==> user.Some? && user.value.role in {CUSTOMER, ADMINISTRATOR}
    ensures d == Next || d == UNAUTHENTICATED || d == DENIED
  {
    if user.None? then UNAUTHENTICATED
    else if user.value.role == CUSTOMER || user.value.role == ADMINISTRATOR then Next
    else DENIED
  }

  /** `hasItemsInCart`, given the application's item counter. */
  function HasItemsInCart(user: Option<SessionUser>, numItemsInCart: Value): (d: Decision)
    ensures user.None? <==> d == UNAUTHENTICATED
    ensures d == Next <==> user.Some? && Truthy(numItemsInCart)
    ensures d == Next || d == UNAUTHENTICATED || d == CART_EMPTY
  {
    if user.None? then UNAUTHENTICATED
    else if Truthy(numItemsInCart) then Next
    else CART_EMPTY
  }

  /** `orderedThatOrAdmin` for the order with id `orderId`: only a customer
      dereferences the order (and its `userId`), so only a customer can
      throw. */
  function OrderedThatOrAdmin(user: Option<SessionUser>, orders: seq<Row>, orderId: Id): (d: Decision)
    ensures user.None? <==> d == UNAUTHENTICATED
    ensures d == Next <==>
              user.Some? && (user.value.role == ADMINISTRATOR
                             || (user.value.role == CUSTOMER && FindRow(orders, orderId).Some?
                                 && Get(FindRow(orders, orderId).value.doc, "userId") == Ref(user.value.id)))
    ensures d == Throws <==>
              user.Some? && user.value.role == CUSTOMER
              && (FindRow(orders, orderId).None? || Get(FindRow(orders, orderId).value.doc, "userId") == Null)
    ensures d == Next || d == UNAUTHENTICATED || d == DENIED || d == Throws
  {
    if user.None? then UNAUTHENTICATED
    else
      var u := user.value;
      var order := FindRow(orders, orderId);
      if u.role == CUSTOMER then
        if order.None? then Throws
        else
          var owner := Get(order.value.doc, "userId");
          if owner == Null then Throws
          else if owner == Ref(u.id) then Next
          else DENIED
      else if u.role == ADMINISTRATOR then Next
      else DENIED
  }

  /** `isSupplierOfProductOrAdmin` for the product with id `productId`: the
      product is read with its joined supplier; only a supplier dereferences
      its own `supplierId`, the product and the product's supplier. */
  function IsSupplierOfProductOrAdmin(user: Option<SessionUser>, products: seq<Row>, suppliers: seq<Row>, productId: Id): (d: Decision)
    ensures user.None? <==> d == UNAUTHENTICATED
    ensures d == Next <==>
              user.Some? && (user.value.role == ADMINISTRATOR
                             || (user.value.role == SUPPLIER && user.value.supplierId.Some?
                                 && FindById(products, suppliers, productId).Some?
                                 && FindById(products, suppliers, productId).value.supplier.Some?
                                 && FindById(products, suppliers, productId).value.supplier.value.id == user.value.supplierId.value))
    ensures d == Throws <==>
              user.Some? && user.value.role == SUPPLIER
              && (user.value.supplierId.None? || FindById(products, suppliers, productId).None?
                  || FindById(products, suppliers, productId).value.supplier.None?)
    ensures d == Next || d == UNAUTHENTICATED || d == DENIED || d == Throws
  {
    if user.None? then UNAUTHENTICATED
    else
      var u := user.value;
      var product := FindById(products, suppliers, productId);
      if u.role == SUPPLIER then
        if u.supplierId.None? || product.None? || product.value.supplier.None? then Throws
        else if product.value.supplier.value.id == u.supplierId.value then Next
        else DENIED
      else if u.role == ADMINISTRATOR then Next
      else DENIED
  }

  /** `worksThereOrAdmin` for the supplier with id `supplierId` (the URL's). */
  function WorksThereOrAdmin(user: Option<SessionUser>, supplierId: Id): (d: Decision)
    ensures user.None? <==> d == UNAUTHENTICATED
    ensures d == Next <==>
              user.Some? && (user.value.role == ADMINISTRATOR
                             || (user.value.role == SUPPLIER && user.value.supplierId == Some(supplierId)))
    ensures d == Next || d == UNAUTHENTICATED || d == DENIED
  {
    if user.None? then UNAUTHENTICATED
    else if (user.value.role == SUPPLIER && user.value.supplierId == Some(supplierId)) || user.value.role == ADMINISTRATOR then Next
    else DENIED
  }

  /** `isThatUserOrAdmin` for the user with id `userId` (the URL's). */
  function IsThatUserOrAdmin(user: Option<SessionUser>, userId: Id): (d: Decision)
    ensures user.None? <==> d == UNAUTHENTICATED
    ensures d == Next <==> user.Some? && (user.value.id == userId || user.value.role == ADMINISTRATOR)
    ensures d == Next || d == UNAUTHENTICATED || d == DENIED
  {
    if user.None? then UNAUTHENTICATED
    else if user.value.id == userId || user.value.role == ADMINISTRATOR then Next
    else DENIED
  }

  // ---------------------------------------------------------------------
  // Properties across the gates

  /** An administrator passes every role and ownership gate, whatever the
      records say, and never throws. */
  lemma AdministratorPassesEveryOwnershipGate(user: SessionUser, orders: seq<Row>, products: seq<Row>, suppliers: seq<Row>, id: Id)
    requires user.role == ADMINISTRATOR
    ensures IsAdmin(Some(user)) == Next
    ensures IsSupplierOrAdmin(Some(user)) == Next
    ensures IsCustomerOrAdmin(Some(user)) == Next
    ensures OrderedThatOrAdmin(Some(user), orders, id) == Next
    ensures IsSupplierOfProductOrAdmin(Some(user), products, suppliers, id) == Next
    ensures WorksThereOrAdmin(Some(user), id) == Next
    ensures IsThatUserOrAdmin(Some(user), id) == Next
  {
  }

  /** ... but not `hasItemsInCart`, which looks only at the counter. */
  lemma AdministratorWithEmptyCartIsTurnedAway(user: SessionUser, numItemsInCart: Value)
    requires user.role == ADMINISTRATOR && !Truthy(numItemsInCart)
    ensures HasItemsInCart(Some(user), numItemsInCart) == CART_EMPTY
  {
  }

  /** The role gates nest: both the supplier gate and the customer gate
      pass exactly the administrators. */
  lemma AdminIsWhereRoleGatesMeet(user: Option<SessionUser>)
    ensures IsAdmin(user) == Next <==> IsSupplierOrAdmin(user) == Next && IsCustomerOrAdmin(user) == Next
    ensures IsAdmin(user) == Next ==> IsSupplierOrAdmin(user) == Next
  {
  }

  /** A supplier whose supplier is not the product's is refused editing or
      deleting that product, and the product stays as it was (the gate runs
      before the controller). */
  lemma OtherSuppliersProductIsRefused(user: SessionUser, products: seq<Row>, suppliers: seq<Row>, productId: Id)
    requires user.role == SUPPLIER && user.supplierId.Some?
    requires FindById(products, suppliers, productId).Some?
    requires FindById(products, suppliers, productId).value.supplier.Some?
    requires FindById(products, suppliers, productId).value.supplier.value.id != user.supplierId.value
    ensures IsSupplierOfProductOrAdmin(Some(user), products, suppliers, productId) == DENIED
  {
  }

  /** A supplier whose supplier is the product's passes. */
  lemma OwnProductIsAllowed(user: SessionUser, products: seq<Row>, suppliers: seq<Row>, productId: Id)
    requires user.role == SUPPLIER && user.supplierId.Some?
    requires FindRow(products, productId).Some?
    requires Lookup(FindRow(products, productId).value, "supplierId") == Ref(user.supplierId.value)
    requires exists i | 0 <= i < |suppliers| :: suppliers[i].id == user.supplierId.value
    ensures IsSupplierOfProductOrAdmin(Some(user), products, suppliers, productId) == Next
  {
    var product := FindRow(products, productId).value;
    var joined := SupplierOf(product, suppliers);
    var i :| 0 <= i < |suppliers| && suppliers[i].id == user.supplierId.value;
    assert Ref(suppliers[i].id) == Lookup(product, "supplierId");
  }

  /** A customer sees their own order and no one else's. */
  lemma CustomerSeesOnlyOwnOrders(user: SessionUser, orders: seq<Row>, orderId: Id)
    requires user.role == CUSTOMER
    requires FindRow(orders, orderId).Some?
    requires Get(FindRow(orders, orderId).value.doc, "userId").Ref?
    ensures OrderedThatOrAdmin(Some(user), orders, orderId) == Next <==>
              Get(FindRow(orders, orderId).value.doc, "userId").id == user.id
    ensures OrderedThatOrAdmin(Some(user), orders, orderId) != Next ==>
              OrderedThatOrAdmin(Some(user), orders, orderId) == DENIED
  {
  }
}
