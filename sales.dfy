/** Order placement (`POST /api/orders`, routes.ts:203-246) as a specification: what the
    loop over the submitted items does to the order items, the products and the
    inventory ledger. `Routes.PlaceOrder` runs the loop on the storage and is proved to
    leave exactly the tables `Sell` computes; the lemmas here say what those tables are. */
module Sales {
  import opened Common
  import opened Schema
  import opened Tables
  import Queries

  /** One entry of the `items` array of the request body. */
  datatype OrderLine = OrderLine(productId: Id, quantity: int, unitPrice: Decimal, totalPrice: Decimal)

  /** The tables the loop writes: products (stock), order items and the inventory ledger,
      each with its next serial. */
  datatype Ledger = Ledger(
    products: seq<Product>, productSerial: Id,
    orderItems: seq<OrderItem>, orderItemSerial: Id,
    inventory: seq<InventoryMovement>, inventorySerial: Id)

  /** The tables after some lines, and whether a storage call was rejected (the handler's
      `catch` then answers 500 and keeps what was already written). */
  datatype Run = Run(tables: Ledger, failed: bool)

  /** The order item inserted for a line. */
  function ItemRow(orderId: Id, line: OrderLine, id: Id): (i: OrderItem)
    ensures i.id == id && i.orderId == orderId && i.productId == line.productId
    ensures i.quantity == line.quantity
  {
    NewOrderItem(orderId, line.productId, line.quantity, line.unitPrice, line.totalPrice).ToRow(id)
  }

  /** The `referenceId` of every movement the order writes: `order-${order.id}`. */
  function SaleReference(orderId: Id): (s: string)
    ensures |s| > 6 && s[..6] == "order-" && s[6..] == NatToString(orderId)
  {
    "order-" + NatToString(orderId)
  }

  /** Two orders never share a reference id. */
  lemma SaleReferenceInjective(m: Id, n: Id)
    requires SaleReference(m) == SaleReference(n)
    ensures m == n
  {
    assert NatToString(m) == SaleReference(m)[6..] && NatToString(n) == SaleReference(n)[6..];
    NatToStringInjective(m, n);
  }

  /** The movement a sold line records: "out", of the line's product and quantity, with
      reason "Order sale" and the order's reference. */
  function SaleMovement(orderId: Id, line: OrderLine): (m: NewMovement)
    ensures m.productId == line.productId && m.quantity == line.quantity
    ensures m.movementType == "out" && m.reason == "Order sale" && m.referenceId == Some(SaleReference(orderId))
  {
    NewMovement(line.productId, "out", line.quantity, "Order sale", Some(SaleReference(orderId)))
  }

  /** `getProduct(id)` written out as the scan it is, without a quantified contract: the
      first product with the id. `FindProductIsGetProduct` shows it is `Queries.GetProduct`. */
  function FindProduct(products: seq<Product>, id: int): Option<Product>
  {
    if products == [] then None
    else if products[0].id == id then Some(products[0])
    else FindProduct(products[1..], id)
  }

  lemma {:induction false} FindProductIsGetProduct(products: seq<Product>, id: int)
    ensures FindProduct(products, id) == Queries.GetProduct(products, id)
  {
    if products != [] && products[0].id != id {
      FindProductIsGetProduct(products[1..], id);
    }
  }

  /** The order item insert fails: the product is missing and `REFERENCES` is enforced. */
  predicate Rejected(line: OrderLine, products: seq<Product>, constraints: bool)
  {
    constraints && FindProduct(products, line.productId).None?
  }


  /** One pass of the loop body: insert the item; then, when the product exists, lower its
      stock by the quantity (no floor) and record an "out" movement. */
  function SellOne(t: Ledger, orderId: Id, line: OrderLine, constraints: bool, now: Timestamp): (r: Run)
    ensures r.failed == Rejected(line, t.products, constraints)
    ensures r.tables.productSerial == t.productSerial
    ensures r.tables.orderItemSerial == t.orderItemSerial + 1
    ensures r.tables.orderItems == if r.failed then t.orderItems
                                   else t.orderItems + [ItemRow(orderId, line, t.orderItemSerial)]
    ensures var moved := !r.failed && FindProduct(t.products, line.productId).Some?;
            r.tables.inventory == t.inventory + (if moved then [SaleMovement(orderId, line).ToRow(t.inventorySerial, now)] else []) &&
            r.tables.inventorySerial == t.inventorySerial + (if moved then 1 else 0)
  {
    if Rejected(line, t.products, constraints) then
      Run(t.(orderItemSerial := t.orderItemSerial + 1), true)
    else
      var t1 := t.(orderItems := t.orderItems + [ItemRow(orderId, line, t.orderItemSerial)],
                   orderItemSerial := t.orderItemSerial + 1);
      match FindProduct(t.products, line.productId)
      case None => Run(t1, false)
      case Some(p) =>
        Run(t1.(products := SetStock(t.products, line.productId, p.stockQuantity - line.quantity, now),
                inventory := t.inventory + [SaleMovement(orderId, line).ToRow(t.inventorySerial, now)],
                inventorySerial := t.inventorySerial + 1),
            false)
  }

  /** The three ways one pass can go: rejected, product missing, product sold. */
  lemma SellOneCases(t: Ledger, orderId: Id, line: OrderLine, c: bool, now: Timestamp)
    ensures var r := SellOne(t, orderId, line, c, now);
            var rows, itemSerial := t.orderItems + [ItemRow(orderId, line, t.orderItemSerial)], t.orderItemSerial + 1;
            var p := FindProduct(t.products, line.productId);
            if Rejected(line, t.products, c) then r == Run(t.(orderItemSerial := itemSerial), true)
            else if p.None? then r == Run(t.(orderItems := rows, orderItemSerial := itemSerial), false)
            else r == Run(Ledger(SetStock(t.products, line.productId, p.value.stockQuantity - line.quantity, now),
                                 t.productSerial, rows, itemSerial,
                                 t.inventory + [SaleMovement(orderId, line).ToRow(t.inventorySerial, now)],
                                 t.inventorySerial + 1), false)
  {
  }

  /** The loop over the first `k` lines, stopping at the first rejected storage call. */
  function Sell(t: Ledger, orderId: Id, lines: seq<OrderLine>, constraints: bool, now: Timestamp, k: nat): (r: Run)
    requires k <= |lines|
    ensures r.tables.productSerial == t.productSerial
  {
    if k == 0 then Run(t, false)
    else
      var r := Sell(t, orderId, lines, constraints, now, k - 1);
      if r.failed then r else SellOne(r.tables, orderId, lines[k - 1], constraints, now)
  }

  /** The order items the first `k` lines are meant to produce: one per line, in
      submission order, with consecutive ids from `serial`. */
  function ItemRows(orderId: Id, lines: seq<OrderLine>, serial: Id, k: nat): (rows: seq<OrderItem>)
    requires k <= |lines|
    ensures |rows| == k
    ensures forall i :: 0 <= i < k ==> rows[i] == ItemRow(orderId, lines[i], serial + i)
  {
    if k == 0 then [] else ItemRows(orderId, lines, serial, k - 1) + [ItemRow(orderId, lines[k - 1], serial + k - 1)]
  }

  /** The movements the first `k` lines are meant to record: an "out" movement with reason
      "Order sale" and the order's reference for each line whose product exists, with
      consecutive ids from `serial`. */
  function SaleMoves(orderId: Id, lines: seq<OrderLine>, products: seq<Product>, serial: Id, now: Timestamp, k: nat)
    : (d: seq<InventoryMovement>)
    requires k <= |lines|
    ensures |d| <= k
  {
    if k == 0 then []
    else
      var d := SaleMoves(orderId, lines, products, serial, now, k - 1);
      var line := lines[k - 1];
      if FindProduct(products, line.productId).Some? then
        d + [SaleMovement(orderId, line).ToRow(serial + |d|, now)]
      else d
  }

  /** Each movement of a sale has the next ledger id, type "out", reason "Order sale" and
      the order's reference. */
  lemma {:induction false} SaleMovesShape(orderId: Id, lines: seq<OrderLine>, products: seq<Product>, serial: Id,
                                          now: Timestamp, k: nat)
    requires k <= |lines|
    ensures forall i :: 0 <= i < |SaleMoves(orderId, lines, products, serial, now, k)| ==>
              var m := SaleMoves(orderId, lines, products, serial, now, k)[i];
              m.id == serial + i && m.movementType == "out" && m.reason == "Order sale" &&
              m.referenceId == Some(SaleReference(orderId))
  {
    if k > 0 {
      SaleMovesShape(orderId, lines, products, serial, now, k - 1);
      var d := SaleMoves(orderId, lines, products, serial, now, k - 1);
      var line := lines[k - 1];
      if FindProduct(products, line.productId).Some? {
        var e := d + [SaleMovement(orderId, line).ToRow(serial + |d|, now)];
        assert SaleMoves(orderId, lines, products, serial, now, k) == e;
        assert forall i :: 0 <= i < |d| ==> e[i] == d[i];
      }
    }
  }

  /** The total quantity the first `k` lines order of product `pid`: nothing when none of
      them names it. */
  function Sold(lines: seq<OrderLine>, pid: int, k: nat): (n: int)
    requires k <= |lines|
    ensures (forall i :: 0 <= i < k ==> lines[i].productId != pid) ==> n == 0
  {
    if k == 0 then 0
    else Sold(lines, pid, k - 1) + (if lines[k - 1].productId == pid then lines[k - 1].quantity else 0)
  }

  /** The net stock change the movements record for product `pid`: "in" adds, any other
      type takes away; zero when no movement is of product `pid`. */
  function Net(d: seq<InventoryMovement>, pid: int): (n: int)
    ensures (forall i :: 0 <= i < |d| ==> d[i].productId != pid) ==> n == 0
  {
    if d == [] then 0
    else
      var m := d[|d| - 1];
      Net(d[..|d| - 1], pid) + (if m.productId != pid then 0 else if m.movementType == "in" then m.quantity else -m.quantity)
  }

  lemma NetAppendOne(d: seq<InventoryMovement>, m: InventoryMovement, pid: int)
    ensures Net(d + [m], pid) ==
            Net(d, pid) + (if m.productId != pid then 0 else if m.movementType == "in" then m.quantity else -m.quantity)
  {
    assert (d + [m])[..|d|] == d;
  }

  /** Some of the first `k` lines names product `pid`. */
  predicate Names(lines: seq<OrderLine>, pid: int, k: nat)
    requires k <= |lines|
  {
    exists i :: 0 <= i < k && lines[i].productId == pid
  }

  /** Once a storage call was rejected, the later lines do nothing. */
  lemma {:induction false} SellFailedStays(t: Ledger, o: Id, lines: seq<OrderLine>, c: bool, now: Timestamp, j: nat, k: nat)
    requires j <= k <= |lines| && Sell(t, o, lines, c, now, j).failed
    ensures Sell(t, o, lines, c, now, k) == Sell(t, o, lines, c, now, j)
  {
    if j < k {
      SellFailedStays(t, o, lines, c, now, j, k - 1);
    }
  }

  /** `SetStock` keeps the product ids, so the same products exist after it. */
  lemma SetStockSameIds(products: seq<Product>, pid: int, q: int, now: Timestamp, k: int)
    ensures Queries.GetProduct(SetStock(products, pid, q, now), k).Some? == Queries.GetProduct(products, k).Some?
  {
    var s := SetStock(products, pid, q, now);
    SetStockAt(products, pid, q, now);
    assert forall i :: 0 <= i < |s| ==> s[i].id == products[i].id;
  }

  lemma SellOneSameIds(t: Ledger, o: Id, line: OrderLine, c: bool, now: Timestamp, pid: int)
    ensures FindProduct(SellOne(t, o, line, c, now).tables.products, pid).Some? ==
            FindProduct(t.products, pid).Some?
  {
    var r := SellOne(t, o, line, c, now).tables;
    var p := FindProduct(t.products, line.productId);
    if Rejected(line, t.products, c) || p.None? {
      assert r.products == t.products;
    } else {
      var q := p.value.stockQuantity - line.quantity;
      assert r.products == SetStock(t.products, line.productId, q, now);
      FindProductIsGetProduct(t.products, pid);
      FindProductIsGetProduct(r.products, pid);
      SetStockSameIds(t.products, line.productId, q, now, pid);
    }
  }

  /** Placing an order neither adds nor removes products. */
  lemma {:induction false} SellSameIds(t: Ledger, o: Id, lines: seq<OrderLine>, c: bool, now: Timestamp, k: nat, pid: int)
    requires k <= |lines|
    ensures FindProduct(Sell(t, o, lines, c, now, k).tables.products, pid).Some? ==
            FindProduct(t.products, pid).Some?
  {
    if k > 0 {
      SellSameIds(t, o, lines, c, now, k - 1, pid);
      var r := Sell(t, o, lines, c, now, k - 1);
      if !r.failed {
        SellOneSameIds(r.tables, o, lines[k - 1], c, now, pid);
      }
    }
  }

  /** A product with its stock and its update time blanked out: the columns an order
      leaves alone. */
  function Unstocked(p: Product): Product
  {
    p.(stockQuantity := 0, updatedAt := 0)
  }

  /** One pass on the products: `SetStock` on the line's product when it exists. */
  lemma SellOneProducts(t: Ledger, o: Id, line: OrderLine, c: bool, now: Timestamp, pid: int)
    requires Keyed(t.products, ProductId, t.productSerial)
    ensures var r := SellOne(t, o, line, c, now).tables;
            var before, after := FindProduct(t.products, pid), FindProduct(r.products, pid);
            Keyed(r.products, ProductId, t.productSerial) &&
            (after.Some? <==> before.Some?) &&
            (before.Some? ==>
               after.value.stockQuantity ==
                 before.value.stockQuantity - (if line.productId == pid then line.quantity else 0) &&
               Unstocked(after.value) == Unstocked(before.value)) &&
            (line.productId != pid ==> after == before)
  {
    var r := SellOne(t, o, line, c, now).tables;
    var p := FindProduct(t.products, line.productId);
    if Rejected(line, t.products, c) || p.None? {
      assert r.products == t.products;
    } else {
      var q := p.value.stockQuantity - line.quantity;
      assert r.products == SetStock(t.products, line.productId, q, now);
      SetStockAt(t.products, line.productId, q, now);
      KeyedSameIds(t.products, r.products, ProductId, t.productSerial);
      FindProductIsGetProduct(t.products, pid);
      FindProductIsGetProduct(r.products, pid);
      SetStockReads(t.products, t.productSerial, line.productId, q, now, pid);
    }
  }

  /** The products after the loop: the same products exist, every column but the stock
      and the update time is as before, the stock is lowered by the quantity the lines
      order of the product (when no call was rejected), and a product no line names is
      untouched. */
  lemma {:induction false} SellProducts(t: Ledger, o: Id, lines: seq<OrderLine>, c: bool, now: Timestamp, k: nat, pid: int)
    requires k <= |lines| && Keyed(t.products, ProductId, t.productSerial)
    ensures var r := Sell(t, o, lines, c, now, k);
            Keyed(r.tables.products, ProductId, t.productSerial)
    ensures var r := Sell(t, o, lines, c, now, k);
            var before, after := FindProduct(t.products, pid), FindProduct(r.tables.products, pid);
            (after.Some? <==> before.Some?) &&
            (before.Some? ==> Unstocked(after.value) == Unstocked(before.value)) &&
            (before.Some? && !r.failed ==>
               after.value.stockQuantity == before.value.stockQuantity - Sold(lines, pid, k)) &&
            (!Names(lines, pid, k) ==> after == before)
  {
    if k > 0 {
      SellProducts(t, o, lines, c, now, k - 1, pid);
      var r := Sell(t, o, lines, c, now, k - 1);
      if !r.failed {
        SellOneProducts(r.tables, o, lines[k - 1], c, now, pid);
      }
      if Names(lines, pid, k - 1) {
        var i :| 0 <= i < k - 1 && lines[i].productId == pid;
      }
    }
  }

  /** The order items after a loop that was not cut short: the old rows, then the rows
      `ItemRows` gives for the lines. */
  lemma {:induction false} SellItems(t: Ledger, o: Id, lines: seq<OrderLine>, c: bool, now: Timestamp, k: nat)
    requires k <= |lines|
    ensures var r := Sell(t, o, lines, c, now, k);
            !r.failed ==>
              r.tables.orderItems == t.orderItems + ItemRows(o, lines, t.orderItemSerial, k) &&
              r.tables.orderItemSerial == t.orderItemSerial + k
  {
    if k > 0 {
      SellItems(t, o, lines, c, now, k - 1);
      if !Sell(t, o, lines, c, now, k - 1).failed {
        SellItemsStep(t, o, lines, c, now, k);
      }
    } else {
      assert t.orderItems + [] == t.orderItems;
    }
  }

  /** The inductive step of `SellItems`: one more line appends its row. */
  lemma SellItemsStep(t: Ledger, o: Id, lines: seq<OrderLine>, c: bool, now: Timestamp, k: nat)
    requires 0 < k <= |lines|
    requires var r := Sell(t, o, lines, c, now, k - 1);
             !r.failed &&
             r.tables.orderItems == t.orderItems + ItemRows(o, lines, t.orderItemSerial, k - 1) &&
             r.tables.orderItemSerial == t.orderItemSerial + k - 1
    ensures var r := Sell(t, o, lines, c, now, k);
            !r.failed ==>
              r.tables.orderItems == t.orderItems + ItemRows(o, lines, t.orderItemSerial, k) &&
              r.tables.orderItemSerial == t.orderItemSerial + k
  {
    var r := Sell(t, o, lines, c, now, k - 1).tables;
    var rows := ItemRows(o, lines, t.orderItemSerial, k - 1);
    var row := ItemRow(o, lines[k - 1], r.orderItemSerial);
    assert r.orderItemSerial == t.orderItemSerial + k - 1;
    assert ItemRows(o, lines, t.orderItemSerial, k) == rows + [row];
    assert t.orderItems + rows + [row] == t.orderItems + (rows + [row]);
  }

  /** One pass adds to the ledger the movement `SaleMoves` counts for the line, judged
      against any product table with the same products. */
  lemma SellOneLedger(t: Ledger, products: seq<Product>, o: Id, line: OrderLine, c: bool, now: Timestamp)
    requires FindProduct(t.products, line.productId).Some? == FindProduct(products, line.productId).Some?
    ensures var s := SellOne(t, o, line, c, now);
            var moved := FindProduct(products, line.productId).Some?;
            !s.failed ==>
              s.tables.inventory ==
                t.inventory + (if moved then [SaleMovement(o, line).ToRow(t.inventorySerial, now)] else []) &&
              s.tables.inventorySerial == t.inventorySerial + (if moved then 1 else 0)
  {
  }

  /** `SaleMoves` for one more line: the movement for it, if its product exists, after the
      earlier ones. */
  lemma SaleMovesStep(o: Id, lines: seq<OrderLine>, products: seq<Product>, serial: Id, now: Timestamp, k: nat)
    requires 0 < k <= |lines|
    ensures var d := SaleMoves(o, lines, products, serial, now, k - 1);
            var line := lines[k - 1];
            SaleMoves(o, lines, products, serial, now, k) ==
              d + if FindProduct(products, line.productId).Some? then [SaleMovement(o, line).ToRow(serial + |d|, now)] else []
  {
    var d := SaleMoves(o, lines, products, serial, now, k - 1);
    assert d + [] == d;
  }

  /** The ledger after a loop that was not cut short: the old movements, then the ones
      `SaleMoves` gives for the lines, judged against the products before the order. */
  lemma {:induction false} SellLedger(t: Ledger, o: Id, lines: seq<OrderLine>, c: bool, now: Timestamp, k: nat)
    requires k <= |lines|
    ensures var r := Sell(t, o, lines, c, now, k);
            var d := SaleMoves(o, lines, t.products, t.inventorySerial, now, k);
            !r.failed ==>
              r.tables.inventory == t.inventory + d && r.tables.inventorySerial == t.inventorySerial + |d|
  {
    if k > 0 {
      SellLedger(t, o, lines, c, now, k - 1);
      var r := Sell(t, o, lines, c, now, k - 1);
      if !r.failed {
        var line := lines[k - 1];
        SellSameIds(t, o, lines, c, now, k - 1, line.productId);
        var d := SaleMoves(o, lines, t.products, t.inventorySerial, now, k - 1);
        SellOneLedger(r.tables, t.products, o, line, c, now);
        var step := if FindProduct(t.products, line.productId).Some?
                    then [SaleMovement(o, line).ToRow(t.inventorySerial + |d|, now)] else [];
        SaleMovesStep(o, lines, t.products, t.inventorySerial, now, k);
        assert t.inventory + d + step == t.inventory + (d + step);
      }
    } else {
      assert t.inventory + [] == t.inventory;
    }
  }

  /** The movements net to minus the quantity sold of an existing product, and to nothing
      for a missing one. */
  lemma {:induction false} SaleMovesNet(o: Id, lines: seq<OrderLine>, products: seq<Product>, serial: Id,
                                        now: Timestamp, k: nat, pid: int)
    requires k <= |lines|
    ensures Net(SaleMoves(o, lines, products, serial, now, k), pid) ==
            if FindProduct(products, pid).Some? then -Sold(lines, pid, k) else 0
  {
    if k > 0 {
      SaleMovesNet(o, lines, products, serial, now, k - 1, pid);
      var d := SaleMoves(o, lines, products, serial, now, k - 1);
      var line := lines[k - 1];
      if FindProduct(products, line.productId).Some? {
        var m := SaleMovement(o, line).ToRow(serial + |d|, now);
        assert m.movementType == "out" && m.productId == line.productId && m.quantity == line.quantity;
        assert m.movementType != "in" by { assert m.movementType[0] == 'o'; }
        assert SaleMoves(o, lines, products, serial, now, k) == d + [m];
        NetAppendOne(d, m, pid);
      } else {
        assert SaleMoves(o, lines, products, serial, now, k) == d;
      }
    }
  }

  /** The ledger accounts for the stock: after a loop that was not cut short, each
      product's new stock is its old stock plus the net of the movements the order wrote. */
  lemma SaleLedgerAccounts(t: Ledger, o: Id, lines: seq<OrderLine>, c: bool, now: Timestamp, pid: int)
    requires Keyed(t.products, ProductId, t.productSerial)
    requires !Sell(t, o, lines, c, now, |lines|).failed && FindProduct(t.products, pid).Some?
    ensures var r := Sell(t, o, lines, c, now, |lines|).tables;
            |t.inventory| <= |r.inventory| &&
            FindProduct(r.products, pid).Some? &&
            FindProduct(r.products, pid).value.stockQuantity ==
              FindProduct(t.products, pid).value.stockQuantity + Net(r.inventory[|t.inventory|..], pid)
  {
    var r := Sell(t, o, lines, c, now, |lines|).tables;
    SellProducts(t, o, lines, c, now, |lines|, pid);
    SellLedger(t, o, lines, c, now, |lines|);
    SaleMovesNet(o, lines, t.products, t.inventorySerial, now, |lines|, pid);
    assert r.inventory[|t.inventory|..] == SaleMoves(o, lines, t.products, t.inventorySerial, now, |lines|);
  }

  /** The loop runs to the end exactly when no line is rejected; so without `REFERENCES`
      it always does, and with them every line of a completed order names an existing
      product. */
  lemma {:induction false} SellCompletes(t: Ledger, o: Id, lines: seq<OrderLine>, c: bool, now: Timestamp, k: nat)
    requires k <= |lines|
    ensures !Sell(t, o, lines, c, now, k).failed <==>
            forall j :: 0 <= j < k ==> !Rejected(lines[j], t.products, c)
  {
    if k > 0 {
      SellCompletes(t, o, lines, c, now, k - 1);
      var r := Sell(t, o, lines, c, now, k - 1);
      if r.failed {
        var j :| 0 <= j < k - 1 && Rejected(lines[j], t.products, c);
      } else {
        SellRejects(t, o, lines, c, now, k);
      }
    }
  }

  /** Line `k - 1`, reached, is rejected exactly when its product was missing before the
      order: the earlier lines neither add nor remove products. */
  lemma SellRejects(t: Ledger, o: Id, lines: seq<OrderLine>, c: bool, now: Timestamp, k: nat)
    requires 0 < k <= |lines| && !Sell(t, o, lines, c, now, k - 1).failed
    ensures Sell(t, o, lines, c, now, k).failed == Rejected(lines[k - 1], t.products, c)
  {
    var r := Sell(t, o, lines, c, now, k - 1);
    SellSameIds(t, o, lines, c, now, k - 1, lines[k - 1].productId);
    assert Sell(t, o, lines, c, now, k) == SellOne(r.tables, o, lines[k - 1], c, now);
  }

  /** A loop cut short stopped at the first rejected line `j`: every earlier line was fully
      processed, and the rejected insert only used up an order item id. */
  lemma {:induction false} SellStopsAt(t: Ledger, o: Id, lines: seq<OrderLine>, c: bool, now: Timestamp, k: nat)
    returns (j: nat)
    requires k <= |lines| && Sell(t, o, lines, c, now, k).failed
    ensures j < k && Rejected(lines[j], t.products, c)
    ensures !Sell(t, o, lines, c, now, j).failed
    ensures var done := Sell(t, o, lines, c, now, j).tables;
            Sell(t, o, lines, c, now, k).tables == done.(orderItemSerial := done.orderItemSerial + 1)
  {
    if Sell(t, o, lines, c, now, k - 1).failed {
      j := SellStopsAt(t, o, lines, c, now, k - 1);
    } else {
      j := k - 1;
      SellOneCases(Sell(t, o, lines, c, now, j).tables, o, lines[j], c, now);
      SellSameIds(t, o, lines, c, now, j, lines[j].productId);
    }
  }

  /** Two lines of 1 and 2 units of a product with 10 in stock leave 7: the second line
      reads the stock the first one wrote, and each line records its own movement. */
  lemma SellTenLessOneAndTwo(p: Product, o: Id, a: OrderLine, b: OrderLine, c: bool, now: Timestamp)
    requires p.id >= 1 && p.stockQuantity == 10
    requires a.productId == p.id && b.productId == p.id && a.quantity == 1 && b.quantity == 2
    ensures var t := Ledger([p], p.id + 1, [], 1, [], 1);
            var r := Sell(t, o, [a, b], c, now, 2);
            !r.failed && |r.tables.orderItems| == 2 && |r.tables.inventory| == 2 &&
            FindProduct(r.tables.products, p.id).Some? &&
            FindProduct(r.tables.products, p.id).value.stockQuantity == 7
  {
    var t := Ledger([p], p.id + 1, [], 1, [], 1);
    var lines := [a, b];
    SellCompletes(t, o, lines, c, now, 2);
    SellItems(t, o, lines, c, now, 2);
    SellLedger(t, o, lines, c, now, 2);
    SellProducts(t, o, lines, c, now, 2, p.id);
    assert Sold(lines, p.id, 1) == 1;
    assert |SaleMoves(o, lines, t.products, 1, now, 1)| == 1;
  }
}
