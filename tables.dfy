/** The table updates the storage mutators perform (dist/index.js:255-449), as functions
    from the old table to the new one, and what each of them keeps or changes. The
    mutators of `Storage.DatabaseStorage` are proved against these functions. */
module Tables {
  import opened Common
  import opened Schema
  import Seqs
  import Queries

  // ---------------------------------------------------------------- serial keys

  function UserId(u: User): Id { u.id }
  function ContactId(c: Contact): Id { c.id }
  function ProductId(p: Product): Id { p.id }
  function OrderId(o: Order): Id { o.id }
  function OrderItemId(i: OrderItem): Id { i.id }
  function CartItemId(c: CartItem): Id { c.id }
  function MovementId(m: InventoryMovement): Id { m.id }
  function ShowcaseId(s: ShowcaseImage): Id { s.id }
  function MessageId(m: Message): Id { m.id }
  function NotificationId(n: Notification): Id { n.id }
  function SettingId(s: Setting): Id { s.id }
  function VisitorId(v: Visitor): Id { v.id }
  function PageViewId(p: PageView): Id { p.id }

  /** A `serial` primary key: every id was handed out by the sequence (1 <= id < serial,
      `serial` being the next value) and ids increase along the table, so none repeats. */
  predicate Keyed<T>(s: seq<T>, id: T -> Id, serial: Id)
  {
    1 <= serial &&
    (forall i :: 0 <= i < |s| ==> 1 <= id(s[i]) < serial) &&
    (forall i, j :: 0 <= i < j < |s| ==> id(s[i]) < id(s[j]))
  }

  lemma KeyedAppend<T>(s: seq<T>, id: T -> Id, serial: Id, x: T)
    requires Keyed(s, id, serial) && id(x) == serial
    ensures Keyed(s + [x], id, serial + 1)
  {
  }

  /** Drawing an id that is never used (a rejected insert) keeps the keys valid. */
  lemma KeyedSkip<T>(s: seq<T>, id: T -> Id, serial: Id)
    requires Keyed(s, id, serial)
    ensures Keyed(s, id, serial + 1)
  {
  }

  lemma KeyedSameIds<T>(s: seq<T>, r: seq<T>, id: T -> Id, serial: Id)
    requires Keyed(s, id, serial) && |r| == |s|
    requires forall i :: 0 <= i < |s| ==> id(r[i]) == id(s[i])
    ensures Keyed(r, id, serial)
  {
  }

  lemma KeyedCons<T>(x: T, s: seq<T>, id: T -> Id, serial: Id)
    requires Keyed(s, id, serial) && 1 <= id(x) < serial
    requires forall i :: 0 <= i < |s| ==> id(x) < id(s[i])
    ensures Keyed([x] + s, id, serial)
  {
    var r := [x] + s;
    forall i, j | 0 <= i < j < |r| ensures id(r[i]) < id(r[j]) {
      if i > 0 {
        assert r[i] == s[i - 1] && r[j] == s[j - 1];
      } else {
        assert r[j] == s[j - 1];
      }
    }
  }

  lemma {:induction false} KeyedFilter<T>(s: seq<T>, p: T -> bool, id: T -> Id, serial: Id)
    requires Keyed(s, id, serial)
    ensures Keyed(Seqs.Filter(s, p), id, serial)
  {
    if s != [] {
      var t := s[1..];
      assert Keyed(t, id, serial);
      KeyedFilter(t, p, id, serial);
      var f := Seqs.Filter(t, p);
      if p(s[0]) {
        forall i | 0 <= i < |f| ensures id(s[0]) < id(f[i]) {
          var j :| 0 <= j < |t| && t[j] == f[i];
          assert t[j] == s[j + 1];
        }
        KeyedCons(s[0], f, id, serial);
        assert Seqs.Filter(s, p) == [s[0]] + f;
      } else {
        assert Seqs.Filter(s, p) == f;
      }
    }
  }

  // ---------------------------------------------------------------- update and delete by key

  /** `UPDATE t SET ... WHERE id = k`: every row with id `k` is rewritten by `f`. */
  function UpdateById<T>(s: seq<T>, id: T -> Id, k: int, f: T -> T): (r: seq<T>)
    ensures |r| == |s|
    ensures forall i :: 0 <= i < |s| ==> r[i] == if id(s[i]) == k then f(s[i]) else s[i]
  {
    Seqs.MapWhere(s, (x: T) => id(x) == k, f)
  }

  /** With serial keys the update rewrites exactly one row, or none when `k` is absent. */
  lemma UpdateByIdOne<T>(s: seq<T>, id: T -> Id, serial: Id, k: int, f: T -> T)
    requires Keyed(s, id, serial)
    ensures forall i :: 0 <= i < |s| && id(s[i]) == k ==> UpdateById(s, id, k, f) == s[i := f(s[i])]
    ensures (forall i :: 0 <= i < |s| ==> id(s[i]) != k) ==> UpdateById(s, id, k, f) == s
  {
    forall i | 0 <= i < |s| && id(s[i]) == k ensures UpdateById(s, id, k, f) == s[i := f(s[i])] {
      var r := UpdateById(s, id, k, f);
      assert forall j :: 0 <= j < |s| && j != i ==> id(s[j]) != k;
      assert forall j :: 0 <= j < |s| ==> r[j] == s[i := f(s[i])][j];
    }
    if forall i :: 0 <= i < |s| ==> id(s[i]) != k {
      assert forall j :: 0 <= j < |s| ==> UpdateById(s, id, k, f)[j] == s[j];
    }
  }

  /** `DELETE FROM t WHERE id = k`. */
  function DeleteById<T>(s: seq<T>, id: T -> Id, k: int): (r: seq<T>)
    ensures forall i :: 0 <= i < |r| ==> r[i] in s && id(r[i]) != k
    ensures forall i :: 0 <= i < |s| && id(s[i]) != k ==> s[i] in r
    ensures (forall i :: 0 <= i < |s| ==> id(s[i]) != k) ==> r == s
  {
    Seqs.Filter(s, (x: T) => id(x) != k)
  }

  /** With serial keys the delete removes exactly the one row with id `k`, keeping the
      others in order. */
  lemma {:induction false} DeleteByIdOne<T>(s: seq<T>, id: T -> Id, serial: Id, k: int, i: nat)
    requires Keyed(s, id, serial) && i < |s| && id(s[i]) == k
    ensures DeleteById(s, id, k) == s[..i] + s[i + 1..]
  {
    var t := s[1..];
    assert Keyed(t, id, serial);
    if i == 0 {
      DeleteByIdHead(s, id, serial, k);
    } else {
      assert id(s[0]) < id(s[i]);
      DeleteByIdOne(t, id, serial, k, i - 1);
      DeleteByIdLater(s, id, k, i);
    }
  }

  /** The inductive step of `DeleteByIdOne`: a head that is kept stays in front. */
  lemma DeleteByIdLater<T>(s: seq<T>, id: T -> Id, k: int, i: nat)
    requires 0 < i < |s| && id(s[0]) != k
    requires DeleteById(s[1..], id, k) == s[1..][..i - 1] + s[1..][i..]
    ensures DeleteById(s, id, k) == s[..i] + s[i + 1..]
  {
    DeleteByIdKeepHead(s, id, k);
    SpliceTail(s, i);
  }

  lemma SpliceTail<T>(s: seq<T>, i: nat)
    requires 0 < i < |s|
    ensures [s[0]] + (s[1..][..i - 1] + s[1..][i..]) == s[..i] + s[i + 1..]
  {
    assert s[1..][..i - 1] == s[1..i];
    assert s[1..][i..] == s[i + 1..];
    assert s[..i] == [s[0]] + s[1..i];
  }

  lemma DeleteByIdHead<T>(s: seq<T>, id: T -> Id, serial: Id, k: int)
    requires Keyed(s, id, serial) && |s| > 0 && id(s[0]) == k
    ensures DeleteById(s, id, k) == s[1..]
  {
    var t := s[1..];
    assert forall j :: 0 <= j < |t| ==> id(t[j]) != k by {
      forall j | 0 <= j < |t| ensures id(t[j]) != k {
        assert t[j] == s[j + 1];
        assert id(s[0]) < id(s[j + 1]);
      }
    }
    assert DeleteById(t, id, k) == t;
  }

  lemma DeleteByIdKeepHead<T>(s: seq<T>, id: T -> Id, k: int)
    requires |s| > 0 && id(s[0]) != k
    ensures DeleteById(s, id, k) == [s[0]] + DeleteById(s[1..], id, k)
  {
  }

  lemma KeyedDelete<T>(s: seq<T>, id: T -> Id, serial: Id, k: int)
    requires Keyed(s, id, serial)
    ensures Keyed(DeleteById(s, id, k), id, serial)
  {
    KeyedFilter(s, (x: T) => id(x) != k, id, serial);
  }

  /** `updateProductStock(pid, q)`: `UPDATE products SET stock_quantity = q, updated_at = now
      WHERE id = pid`. */
  function SetStock(products: seq<Product>, pid: int, q: int, now: Timestamp): seq<Product>
  {
    if products == [] then []
    else [Restock(products[0], pid, q, now)] + SetStock(products[1..], pid, q, now)
  }

  /** One row of `SetStock`: the new stock and update time if it is row `pid`. */
  function Restock(p: Product, pid: int, q: int, now: Timestamp): Product
  {
    if p.id == pid then p.(stockQuantity := q, updatedAt := now) else p
  }

  /** `SetStock` row by row. */
  lemma {:induction false} SetStockAt(products: seq<Product>, pid: int, q: int, now: Timestamp)
    ensures |SetStock(products, pid, q, now)| == |products|
    ensures forall i :: 0 <= i < |products| ==> SetStock(products, pid, q, now)[i] == Restock(products[i], pid, q, now)
  {
    if products != [] {
      var tail := products[1..];
      SetStockAt(tail, pid, q, now);
      var r := SetStock(products, pid, q, now);
      forall i | 0 <= i < |products| ensures r[i] == Restock(products[i], pid, q, now) {
        if i > 0 {
          assert r[i] == SetStock(tail, pid, q, now)[i - 1] && tail[i - 1] == products[i];
        }
      }
    }
  }

  /** Only the stock and the update time of product `pid` change; every other product and
      every other column stays as it was, and a missing `pid` changes nothing. */
  lemma SetStockOnlyTarget(products: seq<Product>, serial: Id, pid: int, q: int, now: Timestamp)
    requires Keyed(products, ProductId, serial)
    ensures forall i :: 0 <= i < |products| && products[i].id == pid ==>
              SetStock(products, pid, q, now) ==
              products[i := products[i].(stockQuantity := q, updatedAt := now)]
    ensures (forall i :: 0 <= i < |products| ==> products[i].id != pid) ==>
              SetStock(products, pid, q, now) == products
  {
    var f := (p: Product) => p.(stockQuantity := q, updatedAt := now);
    SetStockAt(products, pid, q, now);
    UpdateByIdOne(products, ProductId, serial, pid, f);
    assert SetStock(products, pid, q, now) == UpdateById(products, ProductId, pid, f);
  }

  /** Reading a product back after `SetStock`: product `pid` now has stock `q`; every
      other product reads as before. */
  lemma SetStockReads(products: seq<Product>, serial: Id, pid: int, q: int, now: Timestamp, k: int)
    requires Keyed(products, ProductId, serial)
    ensures var r := Queries.GetProduct(SetStock(products, pid, q, now), k);
            if k == pid then
              (r.Some? <==> Queries.GetProduct(products, k).Some?) &&
              (r.Some? ==> r.value == Queries.GetProduct(products, k).value.(stockQuantity := q, updatedAt := now))
            else r == Queries.GetProduct(products, k)
  {
    var s := SetStock(products, pid, q, now);
    var before, after := Queries.GetProduct(products, k), Queries.GetProduct(s, k);
    SetStockAt(products, pid, q, now);
    assert forall i :: 0 <= i < |s| ==> s[i].id == products[i].id;
    if before.Some? {
      var i :| 0 <= i < |products| && products[i] == before.value;
      assert after.Some?;
      var j :| 0 <= j < |s| && s[j] == after.value;
      assert i == j;
    }
  }

  /** `PUT /api/products/:id` reaching `updateProduct(id, patch)`. */
  function PatchProduct(products: seq<Product>, id: int, patch: ProductPatch, now: Timestamp): (r: seq<Product>)
    ensures |r| == |products|
    ensures forall i :: 0 <= i < |r| ==>
              r[i].id == products[i].id &&
              (products[i].id == id ==> r[i] == patch.Apply(products[i], now)) &&
              (products[i].id != id ==> r[i] == products[i])
  {
    UpdateById(products, ProductId, id, (p: Product) => patch.Apply(p, now))
  }

  /** Reading the product back after `PatchProduct`: the patch applied to the old row. */
  lemma PatchProductReads(products: seq<Product>, serial: Id, id: int, patch: ProductPatch, now: Timestamp)
    requires Keyed(products, ProductId, serial) && Queries.GetProduct(products, id).Some?
    ensures Queries.GetProduct(PatchProduct(products, id, patch, now), id) ==
            Some(patch.Apply(Queries.GetProduct(products, id).value, now))
  {
    var s := PatchProduct(products, id, patch, now);
    var before := Queries.GetProduct(products, id).value;
    assert forall i :: 0 <= i < |s| ==> s[i].id == products[i].id;
    var i :| 0 <= i < |products| && products[i] == before;
    assert s[i] == patch.Apply(before, now);
    var after := Queries.GetProduct(s, id);
    var j :| 0 <= j < |s| && s[j] == after.value;
    assert i == j;
  }

  /** Some product other than `id` already has this sku (the `UNIQUE` index on `sku`). */
  predicate SkuTaken(products: seq<Product>, sku: string, except: int)
  {
    exists i :: 0 <= i < |products| && products[i].id != except && products[i].sku == sku
  }

  /** Some order item, cart row or ledger row refers to product `id`: the `REFERENCES
      products(id)` constraints (with the default `NO ACTION`) then reject deleting it. */
  predicate ProductReferenced(orderItems: seq<OrderItem>, cart: seq<CartItem>,
                              inventory: seq<InventoryMovement>, id: int)
  {
    (exists i :: 0 <= i < |orderItems| && orderItems[i].productId == id) ||
    (exists i :: 0 <= i < |cart| && cart[i].productId == id) ||
    (exists i :: 0 <= i < |inventory| && inventory[i].productId == id)
  }

  /** `updateOrderStatus(id, status)`. */
  function SetOrderStatus(orders: seq<Order>, id: int, status: string, now: Timestamp): (r: seq<Order>)
    ensures |r| == |orders|
    ensures forall i :: 0 <= i < |r| ==>
              r[i] == orders[i].(status := r[i].status, updatedAt := r[i].updatedAt) &&
              (orders[i].id == id ==> r[i].status == status && r[i].updatedAt == now) &&
              (orders[i].id != id ==> r[i] == orders[i])
  {
    UpdateById(orders, OrderId, id, (o: Order) => o.(status := status, updatedAt := now))
  }

  /** `updateShowcaseImage(id, patch)`. */
  function PatchShowcase(images: seq<ShowcaseImage>, id: int, patch: ShowcasePatch, now: Timestamp)
    : (r: seq<ShowcaseImage>)
    ensures |r| == |images|
    ensures forall i :: 0 <= i < |r| ==>
              r[i].id == images[i].id &&
              (images[i].id == id ==> r[i] == patch.Apply(images[i], now)) &&
              (images[i].id != id ==> r[i] == images[i])
  {
    UpdateById(images, ShowcaseId, id, (s: ShowcaseImage) => patch.Apply(s, now))
  }

  /** `updateVisitor(id, patch)`. */
  function PatchVisitor(visitors: seq<Visitor>, id: int, patch: VisitorPatch, now: Timestamp): (r: seq<Visitor>)
    ensures |r| == |visitors|
    ensures forall i :: 0 <= i < |r| ==>
              r[i].id == visitors[i].id &&
              (visitors[i].id == id ==> r[i] == patch.Apply(visitors[i], now)) &&
              (visitors[i].id != id ==> r[i] == visitors[i])
  {
    UpdateById(visitors, VisitorId, id, (v: Visitor) => patch.Apply(v, now))
  }

  // ---------------------------------------------------------------- cart

  /** `updateCartItem(id, quantity)`: `UPDATE cart SET quantity = q WHERE id = id`. */
  function SetCartQuantity(cart: seq<CartItem>, id: int, q: int): (r: seq<CartItem>)
    ensures |r| == |cart|
    ensures forall i :: 0 <= i < |r| ==>
              r[i] == cart[i].(quantity := r[i].quantity) &&
              r[i].quantity == (if cart[i].id == id then q else cart[i].quantity)
  {
    UpdateById(cart, CartItemId, id, (c: CartItem) => c.(quantity := q))
  }

  /** At most one cart row per (session, product): `addToCart` merges instead of inserting a
      second one, and no other operation inserts cart rows. */
  predicate PairsUnique(cart: seq<CartItem>)
  {
    forall i, j :: 0 <= i < j < |cart| ==>
      !(cart[i].sessionId == cart[j].sessionId && cart[i].productId == cart[j].productId)
  }

  lemma PairsUniqueSetQuantity(cart: seq<CartItem>, id: int, q: int)
    requires PairsUnique(cart)
    ensures PairsUnique(SetCartQuantity(cart, id, q))
  {
  }

  /** The quantity of the session's row for the product, 0 when there is none. */
  function CartQuantity(cart: seq<CartItem>, sessionId: string, productId: Id): int
  {
    match Queries.FindCartRow(cart, sessionId, productId)
    case Some(row) => row.quantity
    case None => 0
  }

  /** `addToCart(item)` when the database accepts it: the quantity is added to the row for
      the same (session, product) if there is one, otherwise a new row is appended. */
  function AddToCart(cart: seq<CartItem>, item: NewCartItem, nextId: Id, now: Timestamp): (r: seq<CartItem>)
    ensures var row := Queries.FindCartRow(cart, item.sessionId, item.productId);
            |r| == (if row.Some? then |cart| else |cart| + 1) &&
            (row.None? ==> r[|cart|] == item.ToRow(nextId, now))
    ensures forall i :: 0 <= i < |cart| ==>
              r[i].id == cart[i].id && r[i].sessionId == cart[i].sessionId && r[i].productId == cart[i].productId
  {
    match Queries.FindCartRow(cart, item.sessionId, item.productId)
    case Some(row) => SetCartQuantity(cart, row.id, row.quantity + item.quantity)
    case None => cart + [item.ToRow(nextId, now)]
  }

  /** The merge rewrites the existing row's quantity in place and nothing else. */
  lemma AddToCartMerge(cart: seq<CartItem>, item: NewCartItem, nextId: Id, now: Timestamp) returns (i: nat)
    requires Keyed(cart, CartItemId, nextId)
    requires Queries.FindCartRow(cart, item.sessionId, item.productId).Some?
    ensures i < |cart| && cart[i] == Queries.FindCartRow(cart, item.sessionId, item.productId).value
    ensures cart[i].sessionId == item.sessionId && cart[i].productId == item.productId
    ensures AddToCart(cart, item, nextId, now) == cart[i := cart[i].(quantity := cart[i].quantity + item.quantity)]
  {
    var row := Queries.FindCartRow(cart, item.sessionId, item.productId).value;
    i :| 0 <= i < |cart| && cart[i] == row && cart[i].sessionId == item.sessionId &&
         cart[i].productId == item.productId;
    UpdateByIdOne(cart, CartItemId, nextId, row.id, (c: CartItem) => c.(quantity := row.quantity + item.quantity));
  }

  /** The merge keeps one row per (session, product), and that row's quantity grows by the
      added quantity; without an existing row exactly one row is appended. */
  lemma AddToCartQuantity(cart: seq<CartItem>, item: NewCartItem, nextId: Id, now: Timestamp)
    requires Keyed(cart, CartItemId, nextId) && PairsUnique(cart)
    ensures PairsUnique(AddToCart(cart, item, nextId, now))
    ensures Queries.FindCartRow(AddToCart(cart, item, nextId, now), item.sessionId, item.productId).Some?
    ensures CartQuantity(AddToCart(cart, item, nextId, now), item.sessionId, item.productId)
         == CartQuantity(cart, item.sessionId, item.productId) + item.quantity
    ensures |AddToCart(cart, item, nextId, now)| ==
            |cart| + (if Queries.FindCartRow(cart, item.sessionId, item.productId).Some? then 0 else 1)
  {
    if Queries.FindCartRow(cart, item.sessionId, item.productId).Some? {
      var i := AddToCartMerge(cart, item, nextId, now);
      MergedRowFound(cart, item.sessionId, item.productId, i, cart[i].quantity + item.quantity);
    } else {
      AppendedRowFound(cart, item.ToRow(nextId, now));
    }
  }

  /** The merge keeps every id, the insert draws the next one, and the table keeps one
      row per (session, product). */
  lemma AddToCartKeeps(cart: seq<CartItem>, item: NewCartItem, nextId: Id, now: Timestamp)
    requires Keyed(cart, CartItemId, nextId) && PairsUnique(cart)
    ensures Keyed(AddToCart(cart, item, nextId, now), CartItemId,
                  if Queries.FindCartRow(cart, item.sessionId, item.productId).Some? then nextId else nextId + 1)
    ensures PairsUnique(AddToCart(cart, item, nextId, now))
  {
    AddToCartQuantity(cart, item, nextId, now);
    if Queries.FindCartRow(cart, item.sessionId, item.productId).Some? {
      KeyedSameIds(cart, AddToCart(cart, item, nextId, now), CartItemId, nextId);
    } else {
      KeyedAppend(cart, CartItemId, nextId, item.ToRow(nextId, now));
    }
  }

  /** Rewriting the quantity of the pair's only row: the pair still has exactly that row. */
  lemma MergedRowFound(cart: seq<CartItem>, s: string, p: Id, i: nat, q: int)
    requires PairsUnique(cart) && i < |cart| && cart[i].sessionId == s && cart[i].productId == p
    ensures PairsUnique(cart[i := cart[i].(quantity := q)])
    ensures Queries.FindCartRow(cart[i := cart[i].(quantity := q)], s, p) == Some(cart[i].(quantity := q))
  {
    var r := cart[i := cart[i].(quantity := q)];
    assert forall j :: 0 <= j < |r| ==> r[j].sessionId == cart[j].sessionId && r[j].productId == cart[j].productId;
    var found := Queries.FindCartRow(r, s, p);
    var j :| 0 <= j < |r| && r[j] == found.value && r[j].sessionId == s && r[j].productId == p;
    assert j == i;
  }

  /** Appending the first row of a pair: the pair now has exactly that row. */
  lemma AppendedRowFound(cart: seq<CartItem>, x: CartItem)
    requires PairsUnique(cart) && Queries.FindCartRow(cart, x.sessionId, x.productId).None?
    ensures PairsUnique(cart + [x])
    ensures Queries.FindCartRow(cart + [x], x.sessionId, x.productId) == Some(x)
  {
    var r := cart + [x];
    var found := Queries.FindCartRow(r, x.sessionId, x.productId);
    var j :| 0 <= j < |r| && r[j] == found.value && r[j].sessionId == x.sessionId && r[j].productId == x.productId;
    assert j == |cart|;
  }

  /** Adding 2 and then 3 of a product the session has not added yet leaves one row for the
      pair, holding 5. */
  lemma AddTwoThenThree(cart: seq<CartItem>, nextId: Id, sessionId: string, productId: Id,
                        t1: Timestamp, t2: Timestamp)
    requires Keyed(cart, CartItemId, nextId) && PairsUnique(cart)
    requires Queries.FindCartRow(cart, sessionId, productId).None?
    ensures var once := AddToCart(cart, NewCartItem(sessionId, productId, 2), nextId, t1);
            var twice := AddToCart(once, NewCartItem(sessionId, productId, 3), nextId + 1, t2);
            |twice| == |cart| + 1 && PairsUnique(twice) &&
            CartQuantity(twice, sessionId, productId) == 5
  {
    var once := AddToCart(cart, NewCartItem(sessionId, productId, 2), nextId, t1);
    AddToCartQuantity(cart, NewCartItem(sessionId, productId, 2), nextId, t1);
    KeyedAppend(cart, CartItemId, nextId, CartItem(nextId, sessionId, productId, 2, t1));
    AddToCartQuantity(once, NewCartItem(sessionId, productId, 3), nextId + 1, t2);
  }

  /** `removeFromCart(id)`. */
  function RemoveFromCart(cart: seq<CartItem>, id: int): seq<CartItem>
  {
    DeleteById(cart, CartItemId, id)
  }

  /** `clearCart(sessionId)`: every row of other sessions, in order. */
  function ClearCart(cart: seq<CartItem>, sessionId: string): (r: seq<CartItem>)
    ensures forall i :: 0 <= i < |r| ==> r[i] in cart && r[i].sessionId != sessionId
    ensures forall i :: 0 <= i < |cart| && cart[i].sessionId != sessionId ==> cart[i] in r
  {
    Seqs.Filter(cart, (c: CartItem) => c.sessionId != sessionId)
  }

  lemma {:induction false} FilterSplit<T>(s: seq<T>, p: T -> bool, q: T -> bool)
    requires forall i :: 0 <= i < |s| ==> q(s[i]) == !p(s[i])
    ensures |Seqs.Filter(s, p)| + |Seqs.Filter(s, q)| == |s|
  {
    if s != [] {
      FilterSplit(s[1..], p, q);
    }
  }

  /** Clearing a session removes exactly the rows `getCartItems(sessionId)` returns. */
  lemma ClearCartRemovesSession(cart: seq<CartItem>, sessionId: string)
    ensures |ClearCart(cart, sessionId)| == |cart| - |Queries.GetCartItems(cart, sessionId)|
    ensures Queries.GetCartItems(ClearCart(cart, sessionId), sessionId) == []
  {
    var keep, mine := (c: CartItem) => c.sessionId != sessionId, (c: CartItem) => c.sessionId == sessionId;
    FilterSplit(cart, keep, mine);
    var r := ClearCart(cart, sessionId);
    assert forall i :: 0 <= i < |r| ==> !mine(r[i]);
    assert Seqs.Count(r, mine) == 0;
  }

  lemma PairsUniqueCons(x: CartItem, s: seq<CartItem>)
    requires PairsUnique(s)
    requires forall i :: 0 <= i < |s| ==> !(x.sessionId == s[i].sessionId && x.productId == s[i].productId)
    ensures PairsUnique([x] + s)
  {
    var r := [x] + s;
    forall i, j | 0 <= i < j < |r|
      ensures !(r[i].sessionId == r[j].sessionId && r[i].productId == r[j].productId)
    {
      if i > 0 {
        assert r[i] == s[i - 1] && r[j] == s[j - 1];
      } else {
        assert r[j] == s[j - 1];
      }
    }
  }

  lemma {:induction false} PairsUniqueFilter(cart: seq<CartItem>, p: CartItem -> bool)
    requires PairsUnique(cart)
    ensures PairsUnique(Seqs.Filter(cart, p))
  {
    if cart != [] {
      var t := cart[1..];
      PairsUniqueTail(cart);
      PairsUniqueFilter(t, p);
      var f := Seqs.Filter(t, p);
      if p(cart[0]) {
        forall i | 0 <= i < |f|
          ensures !(cart[0].sessionId == f[i].sessionId && cart[0].productId == f[i].productId)
        {
          assert f[i] in t;
        }
        PairsUniqueCons(cart[0], f);
        assert Seqs.Filter(cart, p) == [cart[0]] + f;
      } else {
        assert Seqs.Filter(cart, p) == f;
      }
    }
  }

  /** Dropping the first row keeps the pairs unique, and no later row shares its pair. */
  lemma PairsUniqueTail(cart: seq<CartItem>)
    requires PairsUnique(cart) && cart != []
    ensures PairsUnique(cart[1..])
    ensures forall x :: x in cart[1..] ==> !(cart[0].sessionId == x.sessionId && cart[0].productId == x.productId)
  {
    var t := cart[1..];
    assert forall i :: 0 <= i < |t| ==> t[i] == cart[i + 1];
    forall x | x in t ensures !(cart[0].sessionId == x.sessionId && cart[0].productId == x.productId) {
      var j :| 0 <= j < |t| && t[j] == x;
      assert t[j] == cart[j + 1];
    }
  }


  // ---------------------------------------------------------------- messages and notifications

  /** `markMessageAsRead(id)`: `UPDATE messages SET is_read = true WHERE id = id`. */
  function MarkMessageRead(messages: seq<Message>, id: int): (r: seq<Message>)
    ensures |r| == |messages|
    ensures forall i :: 0 <= i < |r| ==>
              r[i] == messages[i].(isRead := r[i].isRead) &&
              r[i].isRead == (messages[i].isRead || messages[i].id == id)
  {
    UpdateById(messages, MessageId, id, (m: Message) => m.(isRead := true))
  }

  /** Marking a message read sets `isRead` on that message only, and marking it again
      changes nothing. */
  lemma MarkMessageReadOnce(messages: seq<Message>, serial: Id, id: int)
    requires Keyed(messages, MessageId, serial)
    ensures forall i :: 0 <= i < |messages| && messages[i].id == id ==>
              MarkMessageRead(messages, id) == messages[i := messages[i].(isRead := true)]
    ensures (forall i :: 0 <= i < |messages| ==> messages[i].id != id) ==>
              MarkMessageRead(messages, id) == messages
    ensures MarkMessageRead(MarkMessageRead(messages, id), id) == MarkMessageRead(messages, id)
  {
    UpdateByIdOne(messages, MessageId, serial, id, (m: Message) => m.(isRead := true));
    var once := MarkMessageRead(messages, id);
    var twice := MarkMessageRead(once, id);
    assert forall i :: 0 <= i < |once| ==> twice[i] == once[i];
  }

  /** `markNotificationAsRead(id)`. */
  function MarkNotificationRead(notifications: seq<Notification>, id: int): (r: seq<Notification>)
    ensures |r| == |notifications|
    ensures forall i :: 0 <= i < |r| ==>
              r[i] == notifications[i].(isRead := r[i].isRead) &&
              r[i].isRead == (notifications[i].isRead || notifications[i].id == id)
  {
    UpdateById(notifications, NotificationId, id, (n: Notification) => n.(isRead := true))
  }

  lemma MarkNotificationReadOnce(notifications: seq<Notification>, serial: Id, id: int)
    requires Keyed(notifications, NotificationId, serial)
    ensures forall i :: 0 <= i < |notifications| && notifications[i].id == id ==>
              MarkNotificationRead(notifications, id) == notifications[i := notifications[i].(isRead := true)]
    ensures (forall i :: 0 <= i < |notifications| ==> notifications[i].id != id) ==>
              MarkNotificationRead(notifications, id) == notifications
    ensures MarkNotificationRead(MarkNotificationRead(notifications, id), id)
         == MarkNotificationRead(notifications, id)
  {
    UpdateByIdOne(notifications, NotificationId, serial, id, (n: Notification) => n.(isRead := true));
    var once := MarkNotificationRead(notifications, id);
    var twice := MarkNotificationRead(once, id);
    assert forall i :: 0 <= i < |once| ==> twice[i] == once[i];
  }

  // ---------------------------------------------------------------- settings

  /** The `UNIQUE` index on `settings.key`. */
  predicate KeysUnique(settings: seq<Setting>)
  {
    forall i, j :: 0 <= i < j < |settings| ==> settings[i].key != settings[j].key
  }

  /** `UPDATE settings SET value = v, updated_at = now WHERE key = k`; a `value` the body
      leaves out is dropped from the `SET` list, so only the time changes. */
  function SetSettingValue(settings: seq<Setting>, key: string, value: Option<string>, now: Timestamp)
    : (r: seq<Setting>)
    ensures |r| == |settings|
    ensures forall i :: 0 <= i < |r| ==> r[i].id == settings[i].id && r[i].key == settings[i].key
    ensures forall i :: 0 <= i < |r| && settings[i].key != key ==> r[i] == settings[i]
  {
    Seqs.MapWhere(settings, (s: Setting) => s.key == key,
                  (s: Setting) => s.(value := if value.Some? then value.value else s.value, updatedAt := now))
  }

  /** `updateSetting(key, value)`: update the row with the key if there is one, otherwise
      insert one; `None` when that insert is rejected because `value` is missing (the column
      is `NOT NULL`). */
  function UpsertSetting(settings: seq<Setting>, key: string, value: Option<string>, nextId: Id,
                         now: Timestamp): (r: Option<seq<Setting>>)
    ensures r.None? <==> Queries.GetSetting(settings, key).None? && value.None?
    ensures r.Some? ==>
              |r.value| == |settings| + (if Queries.GetSetting(settings, key).Some? then 0 else 1) &&
              forall i :: 0 <= i < |settings| ==> r.value[i].id == settings[i].id && r.value[i].key == settings[i].key
  {
    if Queries.GetSetting(settings, key).Some? then Some(SetSettingValue(settings, key, value, now))
    else if value.None? then None
    else Some(settings + [Setting(nextId, key, value.value, None, now)])
  }

  /** After `updateSetting(key, v)`, `getSetting(key)` reads `v`, other keys read as before,
      and the table grows by one row exactly when the key was new. */
  lemma UpsertSettingReads(settings: seq<Setting>, key: string, v: string, nextId: Id, now: Timestamp, k: string)
    requires KeysUnique(settings)
    ensures UpsertSetting(settings, key, Some(v), nextId, now).Some?
    ensures var r := UpsertSetting(settings, key, Some(v), nextId, now).value;
            KeysUnique(r) &&
            Queries.GetSetting(r, key).Some? && Queries.GetSetting(r, key).value.value == v &&
            (k != key ==> Queries.GetSetting(r, k) == Queries.GetSetting(settings, k)) &&
            |r| == |settings| + (if Queries.GetSetting(settings, key).Some? then 0 else 1)
  {
    if Queries.GetSetting(settings, key).Some? {
      UpdatedSettingReads(settings, key, Some(v), now, k);
    } else {
      var x := Setting(nextId, key, v, None, now);
      KeysUniqueAppend(settings, x);
      GetSettingAppend(settings, x, key);
      GetSettingAppend(settings, x, k);
    }
  }

  /** Rewriting the rows with `key`: the lookup of `key` finds the new value, other keys
      read as before, and keys stay unique. */
  lemma UpdatedSettingReads(settings: seq<Setting>, key: string, value: Option<string>, now: Timestamp, k: string)
    requires KeysUnique(settings) && Queries.GetSetting(settings, key).Some?
    ensures KeysUnique(SetSettingValue(settings, key, value, now))
    ensures var before := Queries.GetSetting(settings, key).value;
            Queries.GetSetting(SetSettingValue(settings, key, value, now), key) ==
              Some(before.(value := if value.Some? then value.value else before.value, updatedAt := now))
    ensures k != key ==> Queries.GetSetting(SetSettingValue(settings, key, value, now), k) == Queries.GetSetting(settings, k)
  {
    var r := SetSettingValue(settings, key, value, now);
    KeysUniqueSameKeys(settings, r);
    SetSettingFound(settings, key, value, now);
    if k != key {
      GetSettingUnaffected(settings, r, k);
    }
  }

  /** The update branch of `updateSetting` keeps the keys serial and unique, and the key
      then reads the new value (or its old one when the body left the value out). */
  lemma SettingUpdateKeeps(settings: seq<Setting>, key: string, value: Option<string>, now: Timestamp, serial: Id)
    requires Keyed(settings, SettingId, serial) && KeysUnique(settings)
    requires Queries.GetSetting(settings, key).Some?
    ensures var r := SetSettingValue(settings, key, value, now);
            Keyed(r, SettingId, serial) && KeysUnique(r) && Queries.GetSetting(r, key).Some? &&
            (value.Some? ==> Queries.GetSetting(r, key).value.value == value.value)
  {
    UpdatedSettingReads(settings, key, value, now, key);
    KeyedSameIds(settings, SetSettingValue(settings, key, value, now), SettingId, serial);
  }

  /** The insert branch of `updateSetting` draws the next id, keeps the keys unique, and
      the key then reads the new row. */
  lemma SettingInsertKeeps(settings: seq<Setting>, x: Setting, serial: Id)
    requires Keyed(settings, SettingId, serial) && KeysUnique(settings) && x.id == serial
    requires Queries.GetSetting(settings, x.key).None?
    ensures Keyed(settings + [x], SettingId, serial + 1) && KeysUnique(settings + [x])
    ensures Queries.GetSetting(settings + [x], x.key) == Some(x)
  {
    KeyedAppend(settings, SettingId, serial, x);
    KeysUniqueAppend(settings, x);
    GetSettingAppend(settings, x, x.key);
  }

  /** Appending a row whose key no row has keeps the keys unique. */
  lemma KeysUniqueAppend(settings: seq<Setting>, x: Setting)
    requires KeysUnique(settings) && Queries.GetSetting(settings, x.key).None?
    ensures KeysUnique(settings + [x])
  {
    var r := settings + [x];
    forall i, j | 0 <= i < j < |r| ensures r[i].key != r[j].key {
      assert r[i] == settings[i];
      if j < |settings| {
        assert r[j] == settings[j];
      }
    }
  }

  lemma KeysUniqueSameKeys(settings: seq<Setting>, r: seq<Setting>)
    requires KeysUnique(settings) && |r| == |settings|
    requires forall i :: 0 <= i < |r| ==> r[i].key == settings[i].key
    ensures KeysUnique(r)
  {
    forall i, j | 0 <= i < j < |r| ensures r[i].key != r[j].key {
      assert r[i].key == settings[i].key && r[j].key == settings[j].key;
    }
  }

  lemma SetSettingFound(settings: seq<Setting>, key: string, value: Option<string>, now: Timestamp)
    requires KeysUnique(settings) && Queries.GetSetting(settings, key).Some?
    ensures var before := Queries.GetSetting(settings, key).value;
            Queries.GetSetting(SetSettingValue(settings, key, value, now), key) ==
              Some(before.(value := if value.Some? then value.value else before.value, updatedAt := now))
  {
    var r := SetSettingValue(settings, key, value, now);
    var before := Queries.GetSetting(settings, key).value;
    var a :| 0 <= a < |settings| && settings[a] == before && settings[a].key == key;
    var g := Queries.GetSetting(r, key);
    var j :| 0 <= j < |r| && r[j] == g.value && r[j].key == key;
    assert j == a;
  }

  /** A lookup by `k` is unaffected by rewriting rows with other keys. */
  lemma {:induction false} GetSettingUnaffected(settings: seq<Setting>, r: seq<Setting>, k: string)
    requires |r| == |settings|
    requires forall i :: 0 <= i < |r| ==> r[i].key == settings[i].key
    requires forall i :: 0 <= i < |r| && settings[i].key == k ==> r[i] == settings[i]
    ensures Queries.GetSetting(r, k) == Queries.GetSetting(settings, k)
  {
    if settings != [] {
      GetSettingUnaffected(settings[1..], r[1..], k);
    }
  }

  /** A lookup in a table with one row appended finds the old row, or else the new one. */
  lemma {:induction false} GetSettingAppend(settings: seq<Setting>, x: Setting, k: string)
    ensures Queries.GetSetting(settings + [x], k) ==
            if Queries.GetSetting(settings, k).Some? then Queries.GetSetting(settings, k)
            else if x.key == k then Some(x) else None
  {
    if settings != [] {
      assert (settings + [x])[1..] == settings[1..] + [x];
      GetSettingAppend(settings[1..], x, k);
    }
  }

  /** Repeating `updateSetting(key, v)` does not add a second row. */
  lemma UpsertSettingTwice(settings: seq<Setting>, key: string, v: string, nextId: Id, t1: Timestamp,
                           t2: Timestamp)
    requires KeysUnique(settings)
    ensures var once := UpsertSetting(settings, key, Some(v), nextId, t1).value;
            UpsertSetting(once, key, Some(v), nextId + 1, t2).Some? &&
            |UpsertSetting(once, key, Some(v), nextId + 1, t2).value| == |once|
  {
    UpsertSettingReads(settings, key, v, nextId, t1, key);
    var once := UpsertSetting(settings, key, Some(v), nextId, t1).value;
    UpsertSettingReads(once, key, v, nextId + 1, t2, key);
  }
}
