/** The request handlers that chain several storage calls (routes.ts), on a
    `DatabaseStorage`. A handler answers with a `Response`: the JSON body of
    `res.json(...)`, or the status of an error reply. Request bodies arrive already
    validated: `None` stands for a body the zod schema rejects (400). Ids taken from the
    path are integers, and `now` stands for both `new Date()` and `Date.now()` during one
    request. */
module Routes {
  import opened Common
  import opened Schema
  import opened Tables
  import Queries
  import opened Storage
  import opened Sales

  datatype Response<+T> = Ok(body: T) | BadRequest | NotFound | ServerError

  /** The tables order placement writes, read from the storage. */
  function Snapshot(db: DatabaseStorage): Ledger
    reads db`products, db`productSerial, db`orderItems, db`orderItemSerial, db`inventory, db`inventorySerial
  {
    Ledger(db.products, db.productSerial, db.orderItems, db.orderItemSerial, db.inventory, db.inventorySerial)
  }

  // -------------------------------------------------------------- POST /api/contact

  /** The notification an accepted contact form raises for the admin. */
  function ContactNotice(c: Contact): (n: NewNotification)
    ensures n.title == "New Contact Form Submission" && n.kind == Some("info") && n.isRead.None?
    ensures n.message == c.name + " submitted a contact form about \"" + c.subject + "\""
  {
    NewNotification("New Contact Form Submission",
                    c.name + " submitted a contact form about \"" + c.subject + "\"",
                    Some("info"), None)
  }

  /** `POST /api/contact` (routes.ts:9-29): an invalid form is refused with 400 and writes
      nothing; a valid one stores exactly one contact and exactly one "info" notification
      naming the sender and the subject. */
  method SubmitContact(db: DatabaseStorage, body: Option<NewContact>, now: Timestamp) returns (resp: Response<Contact>)
    requires db.ContactsValid() && db.NotificationsValid()
    modifies db`contacts, db`contactSerial, db`notifications, db`notificationSerial
    ensures db.ContactsValid() && db.NotificationsValid()
    ensures body.None? ==>
              resp == BadRequest &&
              db.contacts == old(db.contacts) && db.contactSerial == old(db.contactSerial) &&
              db.notifications == old(db.notifications) && db.notificationSerial == old(db.notificationSerial)
    ensures body.Some? ==>
              var c := body.value.ToRow(old(db.contactSerial), now);
              var n := ContactNotice(c).ToRow(old(db.notificationSerial), now);
              resp == Ok(c) &&
              db.contacts == old(db.contacts) + [c] &&
              db.notifications == old(db.notifications) + [n] &&
              n.kind == "info" && !n.isRead &&
              n.message == c.name + " submitted a contact form about \"" + c.subject + "\""
  {
    if body.None? {
      return BadRequest;
    }
    var contact := db.CreateContact(body.value, now);
    var _ := db.CreateNotification(ContactNotice(contact), now);
    resp := Ok(contact);
  }

  // -------------------------------------------------------------- POST /api/products

  /** The `referenceId` of a product's first movement: `initial-${product.id}`. */
  function InitialReference(id: Id): (s: string)
    ensures |s| > 8 && s[..8] == "initial-" && s[8..] == NatToString(id)
  {
    "initial-" + NatToString(id)
  }

  /** Two products never share an initial reference. */
  lemma InitialReferenceInjective(m: Id, n: Id)
    requires InitialReference(m) == InitialReference(n)
    ensures m == n
  {
    assert NatToString(m) == InitialReference(m)[8..] && NatToString(n) == InitialReference(n)[8..];
    NatToStringInjective(m, n);
  }

  /** The movement a new product starts its ledger with: "in", of its whole stock, with
      reason "Initial stock" and the product's reference. */
  function InitialMovement(p: Product): (m: NewMovement)
    ensures m.productId == p.id && m.quantity == p.stockQuantity
    ensures m.movementType == "in" && m.reason == "Initial stock" && m.referenceId == Some(InitialReference(p.id))
  {
    NewMovement(p.id, "in", p.stockQuantity, "Initial stock", Some(InitialReference(p.id)))
  }

  /** The initial movement accounts for the new product's whole stock. */
  lemma InitialStockAccounts(d: seq<InventoryMovement>, p: Product, id: Id, now: Timestamp)
    ensures Net(d + [InitialMovement(p).ToRow(id, now)], p.id) == Net(d, p.id) + p.stockQuantity
  {
    NetAppendOne(d, InitialMovement(p).ToRow(id, now), p.id);
  }

  /** `POST /api/products` (routes.ts:64-86): the product, then an "in" movement of its
      whole stock with reason "Initial stock". A duplicate sku under `UNIQUE` answers 500
      with no row written (its id is used up); an invalid body answers 400. */
  method CreateProductRoute(db: DatabaseStorage, body: Option<NewProduct>, now: Timestamp)
    returns (resp: Response<Product>)
    requires db.ProductsValid() && db.InventoryValid()
    modifies db`products, db`productSerial, db`inventory, db`inventorySerial
    ensures db.ProductsValid() && db.InventoryValid()
    ensures body.None? ==>
              resp == BadRequest && db.products == old(db.products) && db.productSerial == old(db.productSerial) &&
              db.inventory == old(db.inventory) && db.inventorySerial == old(db.inventorySerial)
    ensures body.Some? ==>
              var p := body.value.ToRow(old(db.productSerial), now);
              db.productSerial == old(db.productSerial) + 1 &&
              (resp == ServerError <==> db.enforcesConstraints && SkuTaken(old(db.products), body.value.sku, 0)) &&
              (resp == ServerError ==>
                 db.products == old(db.products) &&
                 db.inventory == old(db.inventory) && db.inventorySerial == old(db.inventorySerial)) &&
              (resp != ServerError ==>
                 resp == Ok(p) && db.products == old(db.products) + [p] &&
                 db.inventory == old(db.inventory) + [InitialMovement(p).ToRow(old(db.inventorySerial), now)] &&
                 db.inventorySerial == old(db.inventorySerial) + 1)
  {
    if body.None? {
      return BadRequest;
    }
    var created := db.CreateProduct(body.value, now);
    if created.Raised? {
      return ServerError;
    }
    var product := created.value;
    assert db.products[|db.products| - 1] == product;
    var _ := db.CreateInventoryMovement(InitialMovement(product), now);
    resp := Ok(product);
  }

  // -------------------------------------------------------------- PUT /api/products/:id

  /** The movement a `PUT` records before the update: when the body carries a stock level
      and the product exists, the difference to its current stock, as an "in" movement
      when it grows and an "out" movement when it shrinks, of the absolute difference; no
      movement when the stock stays the same. */
  function Adjustment(products: seq<Product>, id: int, patch: ProductPatch, now: Timestamp): (m: Option<NewMovement>)
    ensures m.Some? <==>
              patch.stockQuantity.Some? && Queries.GetProduct(products, id).Some? &&
              patch.stockQuantity.value != Queries.GetProduct(products, id).value.stockQuantity
    ensures m.Some? ==>
              var diff := patch.stockQuantity.value - Queries.GetProduct(products, id).value.stockQuantity;
              m.value.productId == id && m.value.quantity > 0 &&
              m.value.quantity == (if diff > 0 then diff else -diff) &&
              (m.value.movementType == "in" <==> diff > 0) &&
              (m.value.movementType == "out" <==> diff < 0) &&
              m.value.reason == "Manual adjustment" &&
              m.value.referenceId == Some("adjustment-" + NatToString(now))
  {
    match Queries.GetProduct(products, id)
    case None => None
    case Some(p) =>
      if patch.stockQuantity.None? then None
      else
        var diff := patch.stockQuantity.value - p.stockQuantity;
        if diff == 0 then None
        else Some(NewMovement(p.id, if diff > 0 then "in" else "out", if diff > 0 then diff else -diff,
                              "Manual adjustment", Some("adjustment-" + NatToString(now))))
  }

  /** The ledger accounts for a manual stock change: once the patch is applied, the
      product's stock is its old stock plus the net of the adjustment movement. */
  lemma AdjustmentAccounts(products: seq<Product>, serial: Id, id: int, patch: ProductPatch, now: Timestamp,
                           d: seq<InventoryMovement>, movementId: Id)
    requires Keyed(products, ProductId, serial) && Queries.GetProduct(products, id).Some?
    requires patch.stockQuantity.Some?
    ensures var adj := Adjustment(products, id, patch, now);
            var after := Queries.GetProduct(PatchProduct(products, id, patch, now), id);
            var moved := d + (if adj.Some? then [adj.value.ToRow(movementId, now)] else []);
            after.Some? && after.value.stockQuantity == patch.stockQuantity.value &&
            after.value.stockQuantity == Queries.GetProduct(products, id).value.stockQuantity + Net(moved, id) - Net(d, id)
  {
    PatchProductReads(products, serial, id, patch, now);
    var adj := Adjustment(products, id, patch, now);
    if adj.Some? {
      NetAppendOne(d, adj.value.ToRow(movementId, now), id);
    } else {
      assert d + [] == d;
    }
  }

  /** `PUT /api/products/:id` (routes.ts:88-115): the adjustment movement is written
      first, then the product is patched. The body is not validated. A missing product
      still answers 200, with no product. A sku clash under `UNIQUE` answers 500, and the
      movement written before it stays. */
  method UpdateProductRoute(db: DatabaseStorage, id: int, patch: ProductPatch, now: Timestamp)
    returns (resp: Response<Option<Product>>)
    requires db.ProductsValid() && db.InventoryValid()
    modifies db`products, db`inventory, db`inventorySerial
    ensures db.ProductsValid() && db.InventoryValid()
    ensures var adj := Adjustment(old(db.products), id, patch, now);
            db.inventory == old(db.inventory) + (if adj.Some? then [adj.value.ToRow(old(db.inventorySerial), now)] else []) &&
            db.inventorySerial == old(db.inventorySerial) + (if adj.Some? then 1 else 0)
    ensures resp.Ok? || resp.ServerError?
    ensures resp.ServerError? <==>
              db.enforcesConstraints && Queries.GetProduct(old(db.products), id).Some? &&
              patch.sku.Some? && SkuTaken(old(db.products), patch.sku.value, id)
    ensures resp.ServerError? ==> db.products == old(db.products)
    ensures resp.Ok? ==>
              db.products == PatchProduct(old(db.products), id, patch, now) &&
              resp.body == Queries.GetProduct(db.products, id) &&
              (resp.body.Some? <==> Queries.GetProduct(old(db.products), id).Some?)
  {
    var adj := Adjustment(db.products, id, patch, now);
    if adj.Some? {
      var _ := db.CreateInventoryMovement(adj.value, now);
    }
    var updated := db.UpdateProduct(id, patch, now);
    if updated.Raised? {
      return ServerError;
    }
    resp := Ok(updated.value);
  }

  // -------------------------------------------------------------- DELETE /api/products/:id

  /** `DELETE /api/products/:id` (routes.ts:117-130): 404 and no change for a missing
      product; otherwise the product is deleted, unless a row still refers to it and
      `REFERENCES` is enforced, which answers 500. */
  method DeleteProductRoute(db: DatabaseStorage, id: int) returns (resp: Response<()>)
    requires db.ProductsValid()
    modifies db`products
    ensures db.ProductsValid()
    ensures Queries.GetProduct(old(db.products), id).None? ==> resp == NotFound && db.products == old(db.products)
    ensures Queries.GetProduct(old(db.products), id).Some? ==>
              (resp == ServerError <==> db.enforcesConstraints && ProductReferenced(db.orderItems, db.cart, db.inventory, id)) &&
              (resp != ServerError ==> resp == Ok(()) && db.products == DeleteById(old(db.products), ProductId, id)) &&
              (resp == ServerError ==> db.products == old(db.products))
  {
    var product := Queries.GetProduct(db.products, id);
    if product.None? {
      return NotFound;
    }
    var ok := db.DeleteProduct(id);
    resp := if ok then Ok(()) else ServerError;
  }

  /** The same handler as compiled (dist/index.js:583-591): there is no existence check, so
      deleting a missing product answers 200 and changes nothing. */
  method DeleteProductAsCompiled(db: DatabaseStorage, id: int) returns (resp: Response<()>)
    requires db.ProductsValid()
    modifies db`products
    ensures db.ProductsValid()
    ensures Queries.GetProduct(old(db.products), id).None? ==> resp == Ok(()) && db.products == old(db.products)
    ensures Queries.GetProduct(old(db.products), id).Some? ==>
              (resp == ServerError <==> db.enforcesConstraints && ProductReferenced(db.orderItems, db.cart, db.inventory, id)) &&
              (resp != ServerError ==> resp == Ok(()) && db.products == DeleteById(old(db.products), ProductId, id)) &&
              (resp == ServerError ==> db.products == old(db.products))
  {
    var ok := db.DeleteProduct(id);
    resp := if ok then Ok(()) else ServerError;
  }

  // -------------------------------------------------------------- orders

  /** An order with its items, as `GET /api/orders/:id` sends it. */
  datatype OrderDetail = OrderDetail(order: Order, items: seq<OrderItem>)

  /** `GET /api/orders/:id` (routes.ts:188-201): 404 when no order has the id, otherwise
      the order with exactly the items that belong to it. */
  function GetOrderRoute(orders: seq<Order>, orderItems: seq<OrderItem>, id: int): (r: Response<OrderDetail>)
    ensures r.Ok? || r.NotFound?
    ensures r.NotFound? <==> Queries.GetOrder(orders, id).None?
    ensures r.Ok? ==> r.body.order in orders && r.body.order.id == id
    ensures r.Ok? ==> forall x :: x in r.body.items <==> x in orderItems && x.orderId == id
  {
    match Queries.GetOrder(orders, id)
    case None => NotFound
    case Some(o) =>
      var items := Queries.GetOrderItems(orderItems, id);
      assert forall x :: x in items ==> x in orderItems by {
        forall x | x in items ensures x in orderItems {
          assert x in multiset(items);
        }
      }
      Ok(OrderDetail(o, items))
  }

  /** Reading a placed order back: when no earlier item belonged to the new order, its
      items are exactly the rows placement inserted, in submission order. */
  lemma PlacedOrderReadsBack(before: seq<OrderItem>, o: Id, lines: seq<OrderLine>, serial: Id)
    requires forall i :: 0 <= i < |before| ==> before[i].orderId != o
    ensures Queries.GetOrderItems(before + ItemRows(o, lines, serial, |lines|), o) == ItemRows(o, lines, serial, |lines|)
  {
    var rows := ItemRows(o, lines, serial, |lines|);
    var p := (i: OrderItem) => i.orderId == o;
    assert Queries.GetOrderItems(before + rows, o) == Seqs.Filter(before + rows, p);
    Seqs.FilterAppend(before, rows, p);
    assert Seqs.Filter(before, p) == [] by {
      assert Seqs.Count(before, p) == 0;
    }
    assert Seqs.Filter(rows, p) == rows;
  }

  /** The sale of an existing product (routes.ts:224-234): its stock lowered by the
      quantity, through `updateProductStock`, and an "out" movement, which `REFERENCES`
      cannot reject since the product exists. */
  method RecordSale(db: DatabaseStorage, orderId: Id, line: OrderLine, now: Timestamp)
    requires db.ProductsValid() && db.InventoryValid()
    requires Queries.GetProduct(db.products, line.productId).Some?
    modifies db`products, db`inventory, db`inventorySerial
    ensures db.ProductsValid() && db.InventoryValid()
    ensures var p := Queries.GetProduct(old(db.products), line.productId).value;
            db.products == SetStock(old(db.products), line.productId, p.stockQuantity - line.quantity, now)
    ensures db.inventory == old(db.inventory) + [SaleMovement(orderId, line).ToRow(old(db.inventorySerial), now)]
    ensures db.inventorySerial == old(db.inventorySerial) + 1
  {
    var stock := Queries.GetProduct(db.products, line.productId).value.stockQuantity - line.quantity;
    SetStockSameIds(db.products, line.productId, stock, now, line.productId);
    db.UpdateProductStock(line.productId, stock, now);
    var _ := db.CreateInventoryMovement(SaleMovement(orderId, line), now);
  }

  /** What the order loop relies on: the three tables it writes are well formed and the
      order its items reference exists. */
  ghost predicate Selling(db: DatabaseStorage, orderId: Id)
    reads db`orders, db`products, db`productSerial, db`orderItems, db`orderItemSerial, db`inventory, db`inventorySerial
  {
    db.OrderItemsValid() && db.ProductsValid() && db.InventoryValid() && Queries.GetOrder(db.orders, orderId).Some?
  }

  /** One pass of the order loop (routes.ts:213-235) on the storage: insert the item;
      when the product exists, write its lowered stock and an "out" movement. It does
      what `Sales.SellOne` describes, and reports whether the insert was rejected. */
  method SellLine(db: DatabaseStorage, orderId: Id, line: OrderLine, now: Timestamp) returns (failed: bool)
    requires Selling(db, orderId)
    modifies db`products, db`orderItems, db`orderItemSerial, db`inventory, db`inventorySerial
    ensures Selling(db, orderId)
    ensures var r := SellOne(old(Snapshot(db)), orderId, line, db.enforcesConstraints, now);
            Snapshot(db) == r.tables && failed == r.failed
  {
    ghost var before := Snapshot(db);
    FindProductIsGetProduct(db.products, line.productId);
    SellOneCases(before, orderId, line, db.enforcesConstraints, now);
    var inserted := db.CreateOrderItem(NewOrderItem(orderId, line.productId, line.quantity, line.unitPrice, line.totalPrice));
    if inserted.Raised? {
      assert Snapshot(db) == before.(orderItemSerial := before.orderItemSerial + 1);
      return true;
    }
    ghost var written := Snapshot(db);
    StockLine(db, orderId, line, now);
    assert Snapshot(db) == written.(products := db.products, inventory := db.inventory,
                                       inventorySerial := db.inventorySerial);
    failed := false;
  }

  /** The product part of the order loop (routes.ts:222-235): the product the line
      names is looked up; when it exists, the sale is recorded, otherwise nothing is
      written. */
  method StockLine(db: DatabaseStorage, orderId: Id, line: OrderLine, now: Timestamp)
    requires db.ProductsValid() && db.InventoryValid()
    modifies db`products, db`inventory, db`inventorySerial
    ensures db.ProductsValid() && db.InventoryValid()
    ensures match Queries.GetProduct(old(db.products), line.productId)
            case None =>
              db.products == old(db.products) && db.inventory == old(db.inventory) &&
              db.inventorySerial == old(db.inventorySerial)
            case Some(p) =>
              db.products == SetStock(old(db.products), line.productId, p.stockQuantity - line.quantity, now) &&
              db.inventory == old(db.inventory) + [SaleMovement(orderId, line).ToRow(old(db.inventorySerial), now)] &&
              db.inventorySerial == old(db.inventorySerial) + 1
  {
    var product := Queries.GetProduct(db.products, line.productId);
    if product.Some? {
      RecordSale(db, orderId, line, now);
    }
  }

  /** Pass `k` of the order loop, stated against `Sales.Sell`: from the tables after `k`
      lines to the tables after `k + 1`. */
  method SellNextLine(db: DatabaseStorage, orderId: Id, lines: seq<OrderLine>, k: nat, now: Timestamp,
                      ghost t0: Ledger)
    returns (failed: bool)
    requires k < |lines| && Selling(db, orderId)
    requires var run := Sell(t0, orderId, lines, db.enforcesConstraints, now, k);
             Snapshot(db) == run.tables && !run.failed
    modifies db`products, db`orderItems, db`orderItemSerial, db`inventory, db`inventorySerial
    ensures Selling(db, orderId)
    ensures var run := Sell(t0, orderId, lines, db.enforcesConstraints, now, k + 1);
            Snapshot(db) == run.tables && failed == run.failed
  {
    ghost var sold := Sell(t0, orderId, lines, db.enforcesConstraints, now, k);
    failed := SellLine(db, orderId, lines[k], now);
    assert Sell(t0, orderId, lines, db.enforcesConstraints, now, k + 1) ==
           SellOne(sold.tables, orderId, lines[k], db.enforcesConstraints, now);
  }

  /** The loop of `POST /api/orders` over the order's items (routes.ts:212-236): it
      leaves the tables as `Sell` over all the lines describes, and stops with `true`
      at the first line the database rejects. */
  method SellLines(db: DatabaseStorage, orderId: Id, lines: seq<OrderLine>, now: Timestamp)
    returns (failed: bool)
    requires Selling(db, orderId)
    modifies db`products, db`orderItems, db`orderItemSerial, db`inventory, db`inventorySerial
    ensures Selling(db, orderId)
    ensures var run := Sell(old(Snapshot(db)), orderId, lines, db.enforcesConstraints, now, |lines|);
            Snapshot(db) == run.tables && failed == run.failed
  {
    ghost var t0 := Snapshot(db);
    var k: nat := 0;
    failed := false;
    while k < |lines| && !failed
      invariant k <= |lines| && Selling(db, orderId)
      invariant var run := Sell(t0, orderId, lines, db.enforcesConstraints, now, k);
                Snapshot(db) == run.tables && failed == run.failed
    {
      failed := SellNextLine(db, orderId, lines, k, now, t0);
      k := k + 1;
    }
    if failed {
      SellFailedStays(t0, orderId, lines, db.enforcesConstraints, now, k, |lines|);
    }
  }

  /** `POST /api/orders` (routes.ts:203-246). An invalid order answers 400 and writes
      nothing. Otherwise the order row is inserted and the items are processed in order as
      `Sales.Sell` describes; a body without an `items` array, or a rejected storage call,
      answers 500 and keeps what was already written. */
  method PlaceOrder(db: DatabaseStorage, body: Option<NewOrder>, items: Option<seq<OrderLine>>, now: Timestamp)
    returns (resp: Response<Order>)
    requires db.OrdersValid() && db.OrderItemsValid() && db.ProductsValid() && db.InventoryValid()
    modifies db`orders, db`orderSerial, db`orderItems, db`orderItemSerial, db`products, db`inventory, db`inventorySerial
    ensures db.OrdersValid() && db.OrderItemsValid() && db.ProductsValid() && db.InventoryValid()
    ensures body.None? ==>
              resp == BadRequest && db.orders == old(db.orders) && db.orderSerial == old(db.orderSerial) &&
              Snapshot(db) == old(Snapshot(db))
    ensures body.Some? ==>
              var order := body.value.ToRow(old(db.orderSerial), now);
              db.orders == old(db.orders) + [order] && db.orderSerial == old(db.orderSerial) + 1 &&
              if items.None? then resp == ServerError && Snapshot(db) == old(Snapshot(db))
              else
                var run := Sell(old(Snapshot(db)), order.id, items.value, db.enforcesConstraints, now, |items.value|);
                Snapshot(db) == run.tables && resp == if run.failed then ServerError else Ok(order)
  {
    if body.None? {
      return BadRequest;
    }
    var order := db.CreateOrder(body.value, now);
    if items.None? {
      return ServerError;
    }
    assert db.orders[|db.orders| - 1] == order;
    var failed := SellLines(db, order.id, items.value, now);
    resp := if failed then ServerError else Ok(order);
  }

  // -------------------------------------------------------------- PUT /api/settings/:key

  /** `PUT /api/settings/:key` (routes.ts:436-444): the upsert of `updateSetting`; the one
      rejected case, a new key without a value, answers 500. */
  method UpdateSettingRoute(db: DatabaseStorage, key: string, value: Option<string>, now: Timestamp)
    returns (resp: Response<Setting>)
    requires db.SettingsValid()
    modifies db`settings, db`settingSerial
    ensures db.SettingsValid()
    ensures resp.Ok? || resp.ServerError?
    ensures resp.ServerError? <==> Queries.GetSetting(old(db.settings), key).None? && value.None?
    ensures resp.ServerError? ==> db.settings == old(db.settings)
    ensures resp.Ok? ==>
              db.settings == UpsertSetting(old(db.settings), key, value, old(db.settingSerial), now).value &&
              Queries.GetSetting(db.settings, key) == Some(resp.body) &&
              (value.Some? ==> resp.body.value == value.value)
  {
    var r := db.UpdateSetting(key, value, now);
    resp := if r.Raised? then ServerError else Ok(r.value);
  }
}
