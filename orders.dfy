/**
 * The order handlers of src/controller/order.controller.js over two in-memory tables,
 * `orders` and `orderItems`. An order belongs to the caller; its items are written with
 * one bulk insert, replaced wholesale on update, and deleted before the order itself.
 */
module Orders {
  import opened Wrappers
  import opened Http
  import opened Body
  import opened Query
  import Tables
  import Users

  /** A row of `orders`; `createdAt` is the timestamp Sequelize adds to every row. */
  datatype Order = Order(id: nat, userId: Uuid, createdAt: int)

  /** A row of `orderItems`. The table has no `count` column. */
  datatype OrderItem = OrderItem(id: nat, orderId: nat, productId: Uuid)

  function IdOf(o: Order): nat {
    o.id
  }

  function ItemIdOf(x: OrderItem): nat {
    x.id
  }

  /** The `orders` table: rows in insertion order and the next AUTO_INCREMENT value. */
  class OrderTable {
    var rows: seq<Order>
    var nextId: nat

    ghost predicate Valid()
      reads this
    {
      && Tables.UniqueIds(rows, IdOf)
      && nextId >= 1
      && forall o :: o in rows ==> 1 <= o.id < nextId
    }

    constructor ()
      ensures Valid() && rows == [] && nextId == 1
    {
      rows := [];
      nextId := 1;
    }
  }

  /** The `orderItems` table: rows in insertion order and the next AUTO_INCREMENT value. */
  class OrderItemTable {
    var rows: seq<OrderItem>
    var nextId: nat

    ghost predicate Valid()
      reads this
    {
      && Tables.UniqueIds(rows, ItemIdOf)
      && nextId >= 1
      && forall x :: x in rows ==> 1 <= x.id < nextId
    }

    constructor ()
      ensures Valid() && rows == [] && nextId == 1
    {
      rows := [];
      nextId := 1;
    }
  }

  /** Every item names an order that exists. */
  ghost predicate ItemsBelong(orders: seq<Order>, items: seq<OrderItem>) {
    forall x :: x in items ==> exists o :: o in orders && o.id == x.orderId
  }

  function OfOrder(id: nat): OrderItem -> bool {
    (x: OrderItem) => x.orderId == id
  }

  function NotOfOrder(id: nat): OrderItem -> bool {
    (x: OrderItem) => x.orderId != id
  }

  // ---------------------------------------------------------------------------
  // The `items` of a request body, and the rows built from them
  // ---------------------------------------------------------------------------

  /** One element of the `items` array: `product_id` and `count`, each possibly absent. */
  datatype ItemIn = ItemIn(productId: Option<Uuid>, count: Option<int>)

  /** The `items` field of a body: absent, present but not an array, or an array. */
  datatype Items = Missing | NotAnArray | Elements(elements: seq<ItemIn>)

  /** An element of what `items.map` builds; the create response echoes these. */
  datatype ItemRecord = ItemRecord(orderId: nat, productId: Option<Uuid>, count: Option<int>)

  /** `items.map(item => ({ order_id, product_id: item.product_id, count: item.count }))`. */
  function Records(orderId: nat, es: seq<ItemIn>): (r: seq<ItemRecord>)
    ensures |r| == |es|
    ensures forall k :: 0 <= k < |r| ==>
      r[k].orderId == orderId && r[k].productId == es[k].productId && r[k].count == es[k].count
  {
    seq(|es|, k requires 0 <= k < |es| => ItemRecord(orderId, es[k].productId, es[k].count))
  }

  /** Every element names a product, so the NOT NULL `product_id` column accepts the insert. */
  predicate AllHaveProduct(es: seq<ItemIn>) {
    forall k :: 0 <= k < |es| ==> es[k].productId.Some?
  }

  /** The rows `bulkCreate` stores for `es` under `orderId`, numbered upwards from `start`. */
  function NewItems(start: nat, orderId: nat, es: seq<ItemIn>): (r: seq<OrderItem>)
    requires AllHaveProduct(es)
    ensures |r| == |es|
    ensures forall k :: 0 <= k < |r| ==> r[k].id == start + k && r[k].productId == es[k].productId.value
    ensures forall x :: x in r ==> x.orderId == orderId && start <= x.id < start + |es|
  {
    seq(|es|, k requires 0 <= k < |es| => OrderItem(start + k, orderId, es[k].productId.value))
  }

  /** The message MySQL gives when a multi-row insert puts NULL into `product_id`. */
  const NullProduct: string := "Column 'product_id' cannot be null"

  // ---------------------------------------------------------------------------
  // Lemmas about the item table
  // ---------------------------------------------------------------------------

  /** Filtering keeps the keys unique. */
  lemma {:induction false} FilterKeepsUnique(s: seq<OrderItem>, keep: OrderItem -> bool)
    requires Tables.UniqueIds(s, ItemIdOf)
    ensures Tables.UniqueIds(Filter(s, keep), ItemIdOf)
  {
    if s != [] {
      Tables.TailUnique(s, ItemIdOf);
      FilterKeepsUnique(s[1..], keep);
      var rest := Filter(s[1..], keep);
      if keep(s[0]) {
        assert Filter(s, keep) == [s[0]] + rest;
        ConsUnique(s[0], rest);
      }
    }
  }

  lemma ConsUnique(x: OrderItem, rest: seq<OrderItem>)
    requires Tables.UniqueIds(rest, ItemIdOf)
    requires forall y :: y in rest ==> y.id != x.id
    ensures Tables.UniqueIds([x] + rest, ItemIdOf)
  {
    var r := [x] + rest;
    forall i, j | 0 <= i < j < |r| ensures ItemIdOf(r[i]) != ItemIdOf(r[j]) {
      assert r[j] == rest[j - 1];
      if i > 0 {
        assert r[i] == rest[i - 1];
      }
    }
  }

  /** Appending freshly numbered rows to a table whose keys lie below `start` keeps keys unique. */
  lemma AppendNumberedUnique(s: seq<OrderItem>, start: nat, orderId: nat, es: seq<ItemIn>)
    requires Tables.UniqueIds(s, ItemIdOf) && AllHaveProduct(es)
    requires forall x :: x in s ==> x.id < start
    ensures Tables.UniqueIds(s + NewItems(start, orderId, es), ItemIdOf)
  {
    var n := NewItems(start, orderId, es);
    var r := s + n;
    forall i, j | 0 <= i < j < |r| ensures ItemIdOf(r[i]) != ItemIdOf(r[j]) {
      if j < |s| {
        assert r[i] == s[i] && r[j] == s[j];
      } else if i < |s| {
        assert r[i] == s[i] && r[i] in s;
        assert r[j] == n[j - |s|];
      } else {
        assert r[i] == n[i - |s|] && r[j] == n[j - |s|];
      }
    }
  }

  /** No row the filter dropped survives it. */
  lemma {:induction false} FilterNone(s: seq<OrderItem>, keep: OrderItem -> bool)
    requires forall x :: x in s ==> !keep(x)
    ensures Filter(s, keep) == []
  {
    if s != [] {
      FilterNone(s[1..], keep);
    }
  }

  /** A filter that admits every row of `s` returns `s`. */
  lemma {:induction false} FilterEvery(s: seq<OrderItem>, keep: OrderItem -> bool)
    requires forall x :: x in s ==> keep(x)
    ensures Filter(s, keep) == s
  {
    if s != [] {
      FilterEvery(s[1..], keep);
    }
  }

  /** Removing one order's items first does not change what another order holds. */
  lemma {:induction false} DropOtherOrder(s: seq<OrderItem>, id: nat, other: nat)
    requires other != id
    ensures Filter(Filter(s, NotOfOrder(id)), OfOrder(other)) == Filter(s, OfOrder(other))
  {
    if s != [] {
      DropOtherOrder(s[1..], id, other);
    }
  }

  /**
   * After the replacement on update, order `id` holds exactly the new rows, in the order of
   * the request, and every other order holds what it held before.
   */
  lemma ReplacementIsExact(s: seq<OrderItem>, id: nat, other: nat, start: nat, es: seq<ItemIn>)
    requires AllHaveProduct(es) && other != id
    ensures Filter(Filter(s, NotOfOrder(id)) + NewItems(start, id, es), OfOrder(id)) == NewItems(start, id, es)
    ensures Filter(Filter(s, NotOfOrder(id)) + NewItems(start, id, es), OfOrder(other)) == Filter(s, OfOrder(other))
  {
    var kept := Filter(s, NotOfOrder(id));
    var n := NewItems(start, id, es);
    FilterAppend(kept, n, OfOrder(id));
    FilterNone(kept, OfOrder(id));
    FilterEvery(n, OfOrder(id));
    FilterAppend(kept, n, OfOrder(other));
    DropOtherOrder(s, id, other);
    FilterNone(n, OfOrder(other));
  }

  /** After deletion no item of order `id` is left, and every other order keeps its items. */
  lemma DeletionIsExact(s: seq<OrderItem>, id: nat, other: nat)
    requires other != id
    ensures Filter(Filter(s, NotOfOrder(id)), OfOrder(id)) == []
    ensures Filter(Filter(s, NotOfOrder(id)), OfOrder(other)) == Filter(s, OfOrder(other))
  {
    FilterNone(Filter(s, NotOfOrder(id)), OfOrder(id));
    DropOtherOrder(s, id, other);
  }

  // ---------------------------------------------------------------------------
  // createOrder: POST "/" of the order router
  // ---------------------------------------------------------------------------

  const UserIdRequired: string := "User ID is required"
  const UserNotFound: string := "User not found"
  const MapOfUndefined: string := "Cannot read properties of undefined (reading 'map')"
  const MapNotAFunction: string := "items.map is not a function"

  /** The 201 response `{ order, orderItems }`. */
  datatype Created = Created(order: Order, orderItems: seq<ItemRecord>)

  /**
   * `createOrder`: check the caller, insert the order, then bulk-insert its items. The
   * order is inserted before `items` is looked at, so a bad `items` leaves it in place.
   */
  method CreateOrder(orders: OrderTable, items: OrderItemTable, users: Users.UserTable,
                     caller: Option<Uuid>, body: Items, now: int) returns (r: Reply<Created>)
    requires orders.Valid() && items.Valid()
    modifies orders, items
    ensures orders.Valid() && items.Valid()
    ensures ItemsBelong(old(orders.rows), old(items.rows)) ==> ItemsBelong(orders.rows, items.rows)
    ensures !Given(caller) ==> r == Fail(400, UserIdRequired) && unchanged(orders) && unchanged(items)
    ensures Given(caller) && !Tables.HasId(users.rows, caller.value, Users.IdOf) ==>
      r == Fail(404, UserNotFound) && unchanged(orders) && unchanged(items)
    ensures Given(caller) && Tables.HasId(users.rows, caller.value, Users.IdOf) ==>
      var order := Order(old(orders.nextId), caller.value, now);
      && orders.rows == old(orders.rows) + [order]
      && orders.nextId == old(orders.nextId) + 1
      && (body.Missing? ==> r == Fail(500, MapOfUndefined) && unchanged(items))
      && (body.NotAnArray? ==> r == Fail(500, MapNotAFunction) && unchanged(items))
      && (body.Elements? && !AllHaveProduct(body.elements) ==> r == Fail(500, NullProduct) && unchanged(items))
      && (body.Elements? && AllHaveProduct(body.elements) ==>
            && r == Ok(201, Created(order, Records(order.id, body.elements)))
            && items.rows == old(items.rows) + NewItems(old(items.nextId), order.id, body.elements)
            && items.nextId == old(items.nextId) + |body.elements|)
  {
    if !Given(caller) {
      return Fail(400, UserIdRequired);
    }
    if Tables.Lookup(users.rows, caller.value, Users.IdOf).None? {
      return Fail(404, UserNotFound);
    }
    var order := Order(orders.nextId, caller.value, now);
    Tables.AppendFreshUnique(orders.rows, order, IdOf);
    orders.rows := orders.rows + [order];
    orders.nextId := orders.nextId + 1;
    assert order in orders.rows;
    match body
    case Missing =>
      return Fail(500, MapOfUndefined);
    case NotAnArray =>
      return Fail(500, MapNotAFunction);
    case Elements(es) =>
      if !AllHaveProduct(es) {
        return Fail(500, NullProduct);
      }
      var added := NewItems(items.nextId, order.id, es);
      AppendNumberedUnique(items.rows, items.nextId, order.id, es);
      items.rows := items.rows + added;
      items.nextId := items.nextId + |es|;
      r := Ok(201, Created(order, Records(order.id, es)));
  }

  // ---------------------------------------------------------------------------
  // getAllOrders: GET "/" of the order router
  // ---------------------------------------------------------------------------

  /** The query parameters: the `user_id` filter, and `page`/`limit` read as numbers. */
  datatype ListParams = ListParams(userId: Option<Uuid>, page: Option<Pos>, limit: Option<Pos>)

  const DefaultPage: Pos := 1
  const DefaultLimit: Pos := 10

  function Keep(p: ListParams): Order -> bool {
    (o: Order) => Given(p.userId) ==> o.userId == p.userId.value
  }

  /**
   * The answer of `getAllOrders`: page `page` of `limit` orders in table order, the `user_id`
   * filter applied only when given, the count before paging, and no `totalPages`.
   */
  function ListOrders(p: ListParams, rows: seq<Order>): (e: Envelope<Order>)
    ensures e.total == |Filter(rows, Keep(p))|
    ensures e.page == Some(p.page.GetOr(DefaultPage) as int) && e.totalPages.None?
    ensures |e.data| <= p.limit.GetOr(DefaultLimit)
    ensures e.data == Slice(Filter(rows, Keep(p)), PageWindow(p.page.GetOr(DefaultPage), p.limit.GetOr(DefaultLimit)))
    ensures forall o :: o in e.data ==> o in rows && (Given(p.userId) ==> o.userId == p.userId.value)
  {
    var page := p.page.GetOr(DefaultPage);
    var limit := p.limit.GetOr(DefaultLimit);
    var matching := Filter(rows, Keep(p));
    var w := PageWindow(page, limit);
    var data := Slice(matching, w);
    forall o | o in data ensures o in matching {
      var k :| 0 <= k < |data| && data[k] == o;
      assert o == matching[w.offset + k];
    }
    Envelope(data, |matching|, Some(page as int), None)
  }

  /** `getAllOrders`: apply the defaults, then `findAndCountAll` with `where`, `limit` and `offset`. */
  method GetAllOrders(t: OrderTable, p: ListParams) returns (r: Reply<Envelope<Order>>)
    ensures r == Ok(200, ListOrders(p, t.rows))
  {
    var page: Pos := 1;
    var limit: Pos := 10;
    if p.page.Some? {
      page := p.page.value;
    }
    if p.limit.Some? {
      limit := p.limit.value;
    }
    var matching := Filter(t.rows, Keep(p));
    r := Ok(200, Envelope(Slice(matching, PageWindow(page, limit)), |matching|, Some(page as int), None));
  }

  // ---------------------------------------------------------------------------
  // getOrderById (GET "/:id" of the order router) and getMyOrders (not routed)
  // ---------------------------------------------------------------------------

  const OrderNotFound: string := "Order not found"

  /** An order together with its items (the `include` of `OrderItem`). */
  datatype Detail = Detail(order: Order, items: seq<OrderItem>)

  /** `getOrderById`: the order with that key and its items, or 404. */
  method GetOrderById(orders: OrderTable, items: OrderItemTable, id: nat) returns (r: Reply<Detail>)
    ensures !Tables.HasId(orders.rows, id, IdOf) ==> r == Fail(404, OrderNotFound)
    ensures Tables.HasId(orders.rows, id, IdOf) ==>
      && r.Ok? && r.status == 200
      && r.value.order in orders.rows && r.value.order.id == id
      && r.value.items == Filter(items.rows, OfOrder(id))
  {
    var found := Tables.Lookup(orders.rows, id, IdOf);
    if found.None? {
      return Fail(404, OrderNotFound);
    }
    r := Ok(200, Detail(found.value, Filter(items.rows, OfOrder(id))));
  }

  function OwnedBy(user: Uuid): Order -> bool {
    (o: Order) => o.userId == user
  }

  /** `ORDER BY createdAt DESC` as an ascending key. */
  function NewestFirst(o: Order): Cell {
    IntCell(-o.createdAt)
  }

  /** The caller's orders, newest first; orders created at the same instant keep table order. */
  function MyOrders(rows: seq<Order>, user: Uuid): (r: seq<Order>)
    ensures multiset(r) == multiset(Filter(rows, OwnedBy(user)))
    ensures forall o :: o in r ==> o in rows && o.userId == user
    ensures forall i, j :: 0 <= i < j < |r| ==> r[i].createdAt >= r[j].createdAt
  {
    var r := SortBy(Filter(rows, OwnedBy(user)), NewestFirst);
    forall i, j | 0 <= i < j < |r| ensures r[i].createdAt >= r[j].createdAt {
      assert CellLe(NewestFirst(r[i]), NewestFirst(r[j]));
    }
    forall o | o in r ensures o in rows && o.userId == user {
      assert o in multiset(r);
    }
    r
  }

  /** `getMyOrders`: 400 without a caller, otherwise the caller's orders, newest first. */
  method GetMyOrders(t: OrderTable, caller: Option<Uuid>) returns (r: Reply<seq<Order>>)
    ensures !Given(caller) ==> r == Fail(400, UserIdRequired)
    ensures Given(caller) ==> r == Ok(200, MyOrders(t.rows, caller.value))
  {
    if !Given(caller) {
      return Fail(400, UserIdRequired);
    }
    r := Ok(200, MyOrders(t.rows, caller.value));
  }

  /** Every order of the caller is listed exactly as often as it is stored. */
  lemma MyOrdersComplete(rows: seq<Order>, user: Uuid, o: Order)
    requires o.userId == user
    ensures multiset(MyOrders(rows, user))[o] == multiset(rows)[o]
  {
    FilterCounts(rows, OwnedBy(user), o);
  }

  // ---------------------------------------------------------------------------
  // updateOrder (PATCH "/:id") and deleteOrder (DELETE "/:id") of the order router
  // ---------------------------------------------------------------------------

  /**
   * `updateOrder`: 404 for a missing order; when `items` is an array, delete all items of
   * the order and bulk-insert the new ones; otherwise change nothing.
   */
  method UpdateOrder(orders: OrderTable, items: OrderItemTable, id: nat, body: Items) returns (r: Reply<Order>)
    requires items.Valid()
    modifies items
    ensures items.Valid()
    ensures ItemsBelong(orders.rows, old(items.rows)) ==> ItemsBelong(orders.rows, items.rows)
    ensures !Tables.HasId(orders.rows, id, IdOf) ==> r == Fail(404, OrderNotFound) && unchanged(items)
    ensures Tables.HasId(orders.rows, id, IdOf) && !body.Elements? ==>
      r == Ok(200, Tables.Lookup(orders.rows, id, IdOf).value) && unchanged(items)
    ensures Tables.HasId(orders.rows, id, IdOf) && body.Elements? && !AllHaveProduct(body.elements) ==>
      && r == Fail(500, NullProduct)
      && items.rows == Filter(old(items.rows), NotOfOrder(id))
      && items.nextId == old(items.nextId)
    ensures Tables.HasId(orders.rows, id, IdOf) && body.Elements? && AllHaveProduct(body.elements) ==>
      && r == Ok(200, Tables.Lookup(orders.rows, id, IdOf).value)
      && items.rows == Filter(old(items.rows), NotOfOrder(id)) + NewItems(old(items.nextId), id, body.elements)
      && items.nextId == old(items.nextId) + |body.elements|
  {
    var found := Tables.Lookup(orders.rows, id, IdOf);
    if found.None? {
      return Fail(404, OrderNotFound);
    }
    if !body.Elements? {
      return Ok(200, found.value);
    }
    var kept := Filter(items.rows, NotOfOrder(id));
    FilterKeepsUnique(items.rows, NotOfOrder(id));
    items.rows := kept;
    if !AllHaveProduct(body.elements) {
      return Fail(500, NullProduct);
    }
    AppendNumberedUnique(kept, items.nextId, id, body.elements);
    items.rows := kept + NewItems(items.nextId, id, body.elements);
    items.nextId := items.nextId + |body.elements|;
    r := Ok(200, found.value);
  }

  /** `deleteOrder`: 404 for a missing order; otherwise delete its items, then the order. */
  method DeleteOrder(orders: OrderTable, items: OrderItemTable, id: nat) returns (r: Reply<string>)
    requires orders.Valid() && items.Valid()
    modifies orders, items
    ensures orders.Valid() && items.Valid()
    ensures orders.nextId == old(orders.nextId) && items.nextId == old(items.nextId)
    ensures ItemsBelong(old(orders.rows), old(items.rows)) ==> ItemsBelong(orders.rows, items.rows)
    ensures !Tables.HasId(old(orders.rows), id, IdOf) ==>
      r == Fail(404, OrderNotFound) && unchanged(orders) && unchanged(items)
    ensures Tables.HasId(old(orders.rows), id, IdOf) ==>
      && r == Ok(200, "Order and its items deleted successfully")
      && items.rows == Filter(old(items.rows), NotOfOrder(id))
      && orders.rows == Tables.Remove(old(orders.rows), id, IdOf)
      && |orders.rows| == |old(orders.rows)| - 1
  {
    if Tables.Lookup(orders.rows, id, IdOf).None? {
      return Fail(404, OrderNotFound);
    }
    FilterKeepsUnique(items.rows, NotOfOrder(id));
    items.rows := Filter(items.rows, NotOfOrder(id));
    Tables.RemoveKeepsUnique(orders.rows, id, IdOf);
    Tables.RemoveOne(orders.rows, id, IdOf);
    orders.rows := Tables.Remove(orders.rows, id, IdOf);
    r := Ok(200, "Order and its items deleted successfully");
  }
}
