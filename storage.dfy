/** `DatabaseStorage` (dist/index.js:255-487): the tables as fields, one mutator per
    storage method that writes. Each table has its rows and the next value of its `serial`
    sequence. The getters are the functions of `Queries` applied to these fields.

    `enforcesConstraints` says whether the database checks the `UNIQUE` and `REFERENCES`
    clauses declared on the tables (dist/index.js:46-182). When it does, an insert or
    update that breaks one is rejected (`Raised`), and so is deleting a product that a
    row still refers to. A rejected insert has already drawn its id from the sequence,
    as in PostgreSQL, so the id is never handed out. */
module Storage {
  import opened Common
  import opened Schema
  import opened Tables
  import Queries

  class DatabaseStorage {
    const enforcesConstraints: bool

    var users: seq<User>
    var userSerial: Id
    var contacts: seq<Contact>
    var contactSerial: Id
    var products: seq<Product>
    var productSerial: Id
    var orders: seq<Order>
    var orderSerial: Id
    var orderItems: seq<OrderItem>
    var orderItemSerial: Id
    var cart: seq<CartItem>
    var cartSerial: Id
    var inventory: seq<InventoryMovement>
    var inventorySerial: Id
    var showcaseImages: seq<ShowcaseImage>
    var showcaseSerial: Id
    var messages: seq<Message>
    var messageSerial: Id
    var notifications: seq<Notification>
    var notificationSerial: Id
    var settings: seq<Setting>
    var settingSerial: Id
    var visitors: seq<Visitor>
    var visitorSerial: Id
    var pageViews: seq<PageView>
    var pageViewSerial: Id

    /** Every table has serial keys; the cart has one row per (session, product) and
        the settings one row per key. Each table's part reads only that table, and each
        mutator requires and re-establishes the part of the table it writes: the other
        parts hold on by their `reads` frames, so every mutator keeps `Valid()`. */
    ghost predicate Valid()
      reads this
    {
      UsersValid() &&
      ContactsValid() &&
      ProductsValid() &&
      OrdersValid() &&
      OrderItemsValid() &&
      CartValid() &&
      InventoryValid() &&
      ShowcaseValid() &&
      MessagesValid() &&
      NotificationsValid() &&
      SettingsValid() &&
      VisitorsValid() &&
      PageViewsValid()
    }

    ghost predicate UsersValid()
      reads this`users, this`userSerial
    {
      Keyed(users, UserId, userSerial)
    }

    ghost predicate ContactsValid()
      reads this`contacts, this`contactSerial
    {
      Keyed(contacts, ContactId, contactSerial)
    }

    ghost predicate ProductsValid()
      reads this`products, this`productSerial
    {
      Keyed(products, ProductId, productSerial)
    }

    ghost predicate OrdersValid()
      reads this`orders, this`orderSerial
    {
      Keyed(orders, OrderId, orderSerial)
    }

    ghost predicate OrderItemsValid()
      reads this`orderItems, this`orderItemSerial
    {
      Keyed(orderItems, OrderItemId, orderItemSerial)
    }

    ghost predicate CartValid()
      reads this`cart, this`cartSerial
    {
      Keyed(cart, CartItemId, cartSerial) && PairsUnique(cart)
    }

    ghost predicate InventoryValid()
      reads this`inventory, this`inventorySerial
    {
      Keyed(inventory, MovementId, inventorySerial)
    }

    ghost predicate ShowcaseValid()
      reads this`showcaseImages, this`showcaseSerial
    {
      Keyed(showcaseImages, ShowcaseId, showcaseSerial)
    }

    ghost predicate MessagesValid()
      reads this`messages, this`messageSerial
    {
      Keyed(messages, MessageId, messageSerial)
    }

    ghost predicate NotificationsValid()
      reads this`notifications, this`notificationSerial
    {
      Keyed(notifications, NotificationId, notificationSerial)
    }

    ghost predicate SettingsValid()
      reads this`settings, this`settingSerial
    {
      Keyed(settings, SettingId, settingSerial) && KeysUnique(settings)
    }

    ghost predicate VisitorsValid()
      reads this`visitors, this`visitorSerial
    {
      Keyed(visitors, VisitorId, visitorSerial)
    }

    ghost predicate PageViewsValid()
      reads this`pageViews, this`pageViewSerial
    {
      Keyed(pageViews, PageViewId, pageViewSerial)
    }

    /** An empty database whose sequences all start at 1. */
    constructor(enforcesConstraints: bool)
      ensures UsersValid() && ContactsValid() && ProductsValid() && OrdersValid()
      ensures OrderItemsValid() && CartValid() && InventoryValid() && ShowcaseValid()
      ensures MessagesValid() && NotificationsValid() && SettingsValid()
      ensures VisitorsValid() && PageViewsValid()
      ensures Valid() && this.enforcesConstraints == enforcesConstraints
      ensures users == [] && contacts == [] && products == [] && orders == [] && orderItems == []
      ensures cart == [] && inventory == [] && showcaseImages == [] && messages == []
      ensures notifications == [] && settings == [] && visitors == [] && pageViews == []
    {
      this.enforcesConstraints := enforcesConstraints;
      users, contacts, products, orders, orderItems := [], [], [], [], [];
      cart, inventory, showcaseImages, messages, notifications := [], [], [], [], [];
      settings, visitors, pageViews := [], [], [];
      userSerial, contactSerial, productSerial, orderSerial, orderItemSerial := 1, 1, 1, 1, 1;
      cartSerial, inventorySerial, showcaseSerial, messageSerial, notificationSerial := 1, 1, 1, 1, 1;
      settingSerial, visitorSerial, pageViewSerial := 1, 1, 1;
    }

    // -------------------------------------------------------------- users

    /** `createUser`: rejected when the username is taken and `UNIQUE` is enforced. */
    method CreateUser(u: NewUser, now: Timestamp) returns (r: Outcome<User>)
      requires UsersValid()
      modifies this`users, this`userSerial
      ensures UsersValid() && userSerial == old(userSerial) + 1
      ensures r.Raised? <==> enforcesConstraints && Queries.GetUserByUsername(old(users), u.username).Some?
      ensures r.Raised? ==> users == old(users)
      ensures r.Done? ==> r.value == u.ToRow(old(userSerial), now) && users == old(users) + [r.value]
    {
      var id := userSerial;
      KeyedSkip(users, UserId, id);
      userSerial := userSerial + 1;
      if enforcesConstraints && Queries.GetUserByUsername(users, u.username).Some? {
        return Raised;
      }
      var row := u.ToRow(id, now);
      KeyedAppend(users, UserId, id, row);
      users := users + [row];
      r := Done(row);
    }

    // -------------------------------------------------------------- contacts

    /** `createContact`: the new row, with the next id. */
    method CreateContact(c: NewContact, now: Timestamp) returns (r: Contact)
      requires ContactsValid()
      modifies this`contacts, this`contactSerial
      ensures ContactsValid() && contactSerial == old(contactSerial) + 1
      ensures r == c.ToRow(old(contactSerial), now) && contacts == old(contacts) + [r]
    {
      r := c.ToRow(contactSerial, now);
      KeyedAppend(contacts, ContactId, contactSerial, r);
      contacts := contacts + [r];
      contactSerial := contactSerial + 1;
    }

    // -------------------------------------------------------------- products

    /** `createProduct`: rejected when the sku is taken and `UNIQUE` is enforced. */
    method CreateProduct(p: NewProduct, now: Timestamp) returns (r: Outcome<Product>)
      requires ProductsValid()
      modifies this`products, this`productSerial
      ensures ProductsValid() && productSerial == old(productSerial) + 1
      ensures r.Raised? <==> enforcesConstraints && SkuTaken(old(products), p.sku, 0)
      ensures r.Raised? ==> products == old(products)
      ensures r.Done? ==> r.value == p.ToRow(old(productSerial), now) && products == old(products) + [r.value]
    {
      var id := productSerial;
      KeyedSkip(products, ProductId, id);
      productSerial := productSerial + 1;
      if enforcesConstraints && SkuTaken(products, p.sku, 0) {
        return Raised;
      }
      var row := p.ToRow(id, now);
      KeyedAppend(products, ProductId, id, row);
      products := products + [row];
      r := Done(row);
    }

    /** `updateProduct(id, patch)`: the patched row as `RETURNING` reads it, or `None` when
        no product has the id; rejected when the new sku belongs to another product and
        `UNIQUE` is enforced. */
    method UpdateProduct(id: int, patch: ProductPatch, now: Timestamp) returns (r: Outcome<Option<Product>>)
      requires ProductsValid()
      modifies this`products
      ensures ProductsValid()
      ensures r.Raised? <==>
                enforcesConstraints && Queries.GetProduct(old(products), id).Some? &&
                patch.sku.Some? && SkuTaken(old(products), patch.sku.value, id)
      ensures r.Raised? ==> products == old(products)
      ensures r.Done? ==> products == PatchProduct(old(products), id, patch, now)
      ensures r.Done? ==> r.value == Queries.GetProduct(products, id)
      ensures r.Done? ==> (r.value.Some? <==> Queries.GetProduct(old(products), id).Some?)
    {
      var present := Queries.GetProduct(products, id).Some?;
      if enforcesConstraints && present && patch.sku.Some? && SkuTaken(products, patch.sku.value, id) {
        return Raised;
      }
      var updated := PatchProduct(products, id, patch, now);
      KeyedSameIds(products, updated, ProductId, productSerial);
      products := updated;
      r := Done(Queries.GetProduct(products, id));
    }

    /** `deleteProduct(id)`: removes the product with that id, if any; rejected when it is
        still referred to and `REFERENCES` is enforced. */
    method DeleteProduct(id: int) returns (ok: bool)
      requires ProductsValid()
      modifies this`products
      ensures ProductsValid()
      ensures !ok <==> enforcesConstraints && Queries.GetProduct(old(products), id).Some? &&
                       ProductReferenced(orderItems, cart, inventory, id)
      ensures products == if ok then DeleteById(old(products), ProductId, id) else old(products)
    {
      if enforcesConstraints && Queries.GetProduct(products, id).Some? &&
         ProductReferenced(orderItems, cart, inventory, id) {
        return false;
      }
      KeyedDelete(products, ProductId, productSerial, id);
      products := DeleteById(products, ProductId, id);
      ok := true;
    }

    /** `updateProductStock(pid, q)`: no `RETURNING`, so a missing product goes unnoticed. */
    method UpdateProductStock(productId: int, quantity: int, now: Timestamp)
      requires ProductsValid()
      modifies this`products
      ensures ProductsValid()
      ensures products == SetStock(old(products), productId, quantity, now)
    {
      var updated := SetStock(products, productId, quantity, now);
      SetStockAt(products, productId, quantity, now);
      KeyedSameIds(products, updated, ProductId, productSerial);
      products := updated;
    }

    // -------------------------------------------------------------- orders

    method CreateOrder(o: NewOrder, now: Timestamp) returns (r: Order)
      requires OrdersValid()
      modifies this`orders, this`orderSerial
      ensures OrdersValid() && orderSerial == old(orderSerial) + 1
      ensures r == o.ToRow(old(orderSerial), now) && orders == old(orders) + [r]
    {
      r := o.ToRow(orderSerial, now);
      KeyedAppend(orders, OrderId, orderSerial, r);
      orders := orders + [r];
      orderSerial := orderSerial + 1;
    }

    method UpdateOrderStatus(id: int, status: string, now: Timestamp) returns (r: Option<Order>)
      requires OrdersValid()
      modifies this`orders
      ensures OrdersValid()
      ensures orders == SetOrderStatus(old(orders), id, status, now)
      ensures r == Queries.GetOrder(orders, id)
      ensures r.Some? <==> Queries.GetOrder(old(orders), id).Some?
    {
      var updated := SetOrderStatus(orders, id, status, now);
      KeyedSameIds(orders, updated, OrderId, orderSerial);
      orders := updated;
      r := Queries.GetOrder(orders, id);
    }

    /** `createOrderItem`: rejected when the order or the product is missing and
        `REFERENCES` is enforced. */
    method CreateOrderItem(item: NewOrderItem) returns (r: Outcome<OrderItem>)
      requires OrderItemsValid()
      modifies this`orderItems, this`orderItemSerial
      ensures OrderItemsValid() && orderItemSerial == old(orderItemSerial) + 1
      ensures r.Raised? <==>
                enforcesConstraints &&
                (Queries.GetOrder(orders, item.orderId).None? || Queries.GetProduct(products, item.productId).None?)
      ensures r.Raised? ==> orderItems == old(orderItems)
      ensures r.Done? ==> r.value == item.ToRow(old(orderItemSerial)) && orderItems == old(orderItems) + [r.value]
    {
      var id := orderItemSerial;
      KeyedSkip(orderItems, OrderItemId, id);
      orderItemSerial := orderItemSerial + 1;
      if enforcesConstraints &&
         (Queries.GetOrder(orders, item.orderId).None? || Queries.GetProduct(products, item.productId).None?) {
        return Raised;
      }
      var row := item.ToRow(id);
      KeyedAppend(orderItems, OrderItemId, id, row);
      orderItems := orderItems + [row];
      r := Done(row);
    }

    // -------------------------------------------------------------- cart

    /** `addToCart(item)`: merges into the session's row for the product, or inserts one;
        only the insert can be rejected (a missing product under `REFERENCES`). */
    method AddToCart(item: NewCartItem, now: Timestamp) returns (r: Outcome<CartItem>)
      requires CartValid()
      modifies this`cart, this`cartSerial
      ensures CartValid()
      ensures Queries.FindCartRow(old(cart), item.sessionId, item.productId).Some? ==>
                var row := Queries.FindCartRow(old(cart), item.sessionId, item.productId).value;
                r == Done(row.(quantity := row.quantity + item.quantity)) && cartSerial == old(cartSerial)
      ensures Queries.FindCartRow(old(cart), item.sessionId, item.productId).None? ==>
                cartSerial == old(cartSerial) + 1 &&
                (r.Raised? <==> enforcesConstraints && Queries.GetProduct(products, item.productId).None?) &&
                (r.Done? ==> r.value == item.ToRow(old(cartSerial), now))
      ensures cart == if r.Raised? then old(cart) else Tables.AddToCart(old(cart), item, old(cartSerial), now)
    {
      var existing := Queries.FindCartRow(cart, item.sessionId, item.productId);
      AddToCartKeeps(cart, item, cartSerial, now);
      if existing.Some? {
        var row := existing.value;
        cart := Tables.AddToCart(cart, item, cartSerial, now);
        r := Done(row.(quantity := row.quantity + item.quantity));
      } else {
        var id := cartSerial;
        cartSerial := cartSerial + 1;
        if enforcesConstraints && Queries.GetProduct(products, item.productId).None? {
          KeyedSkip(cart, CartItemId, id);
          return Raised;
        }
        cart := Tables.AddToCart(cart, item, id, now);
        r := Done(item.ToRow(id, now));
      }
    }

    method UpdateCartItem(id: int, quantity: int) returns (r: Option<CartItem>)
      requires CartValid()
      modifies this`cart
      ensures CartValid()
      ensures cart == SetCartQuantity(old(cart), id, quantity)
      ensures r == Queries.GetCartRow(cart, id)
      ensures r.Some? <==> Queries.GetCartRow(old(cart), id).Some?
    {
      var updated := SetCartQuantity(cart, id, quantity);
      KeyedSameIds(cart, updated, CartItemId, cartSerial);
      PairsUniqueSetQuantity(cart, id, quantity);
      cart := updated;
      r := Queries.GetCartRow(cart, id);
    }

    method RemoveFromCart(id: int)
      requires CartValid()
      modifies this`cart
      ensures CartValid()
      ensures cart == Tables.RemoveFromCart(old(cart), id)
    {
      KeyedDelete(cart, CartItemId, cartSerial, id);
      PairsUniqueFilter(cart, (x: CartItem) => CartItemId(x) != id);
      cart := Tables.RemoveFromCart(cart, id);
    }

    method ClearCart(sessionId: string)
      requires CartValid()
      modifies this`cart
      ensures CartValid()
      ensures cart == Tables.ClearCart(old(cart), sessionId)
    {
      var keep := (c: CartItem) => c.sessionId != sessionId;
      KeyedFilter(cart, keep, CartItemId, cartSerial);
      PairsUniqueFilter(cart, keep);
      cart := Tables.ClearCart(cart, sessionId);
    }

    // -------------------------------------------------------------- inventory ledger

    /** `createInventoryMovement`: rejected when the product is missing and `REFERENCES`
        is enforced. */
    method CreateInventoryMovement(m: NewMovement, now: Timestamp) returns (r: Outcome<InventoryMovement>)
      requires InventoryValid()
      modifies this`inventory, this`inventorySerial
      ensures InventoryValid() && inventorySerial == old(inventorySerial) + 1
      ensures r.Raised? <==> enforcesConstraints && Queries.GetProduct(products, m.productId).None?
      ensures r.Raised? ==> inventory == old(inventory)
      ensures r.Done? ==> r.value == m.ToRow(old(inventorySerial), now) && inventory == old(inventory) + [r.value]
    {
      var id := inventorySerial;
      KeyedSkip(inventory, MovementId, id);
      inventorySerial := inventorySerial + 1;
      if enforcesConstraints && Queries.GetProduct(products, m.productId).None? {
        return Raised;
      }
      var row := m.ToRow(id, now);
      KeyedAppend(inventory, MovementId, id, row);
      inventory := inventory + [row];
      r := Done(row);
    }

    // -------------------------------------------------------------- showcase images

    method CreateShowcaseImage(s: NewShowcaseImage, now: Timestamp) returns (r: ShowcaseImage)
      requires ShowcaseValid()
      modifies this`showcaseImages, this`showcaseSerial
      ensures ShowcaseValid() && showcaseSerial == old(showcaseSerial) + 1
      ensures r == s.ToRow(old(showcaseSerial), now) && showcaseImages == old(showcaseImages) + [r]
    {
      r := s.ToRow(showcaseSerial, now);
      KeyedAppend(showcaseImages, ShowcaseId, showcaseSerial, r);
      showcaseImages := showcaseImages + [r];
      showcaseSerial := showcaseSerial + 1;
    }

    method UpdateShowcaseImage(id: int, patch: ShowcasePatch, now: Timestamp) returns (r: Option<ShowcaseImage>)
      requires ShowcaseValid()
      modifies this`showcaseImages
      ensures ShowcaseValid()
      ensures showcaseImages == PatchShowcase(old(showcaseImages), id, patch, now)
      ensures r == Queries.GetShowcaseImage(showcaseImages, id)
      ensures r.Some? <==> Queries.GetShowcaseImage(old(showcaseImages), id).Some?
    {
      var updated := PatchShowcase(showcaseImages, id, patch, now);
      KeyedSameIds(showcaseImages, updated, ShowcaseId, showcaseSerial);
      showcaseImages := updated;
      r := Queries.GetShowcaseImage(showcaseImages, id);
    }

    method DeleteShowcaseImage(id: int)
      requires ShowcaseValid()
      modifies this`showcaseImages
      ensures ShowcaseValid()
      ensures showcaseImages == DeleteById(old(showcaseImages), ShowcaseId, id)
    {
      KeyedDelete(showcaseImages, ShowcaseId, showcaseSerial, id);
      showcaseImages := DeleteById(showcaseImages, ShowcaseId, id);
    }

    // -------------------------------------------------------------- messages

    /** `createMessage`: rejected when it names a missing contact and `REFERENCES` is
        enforced; a message without a contact is always accepted. */
    method CreateMessage(m: NewMessage, now: Timestamp) returns (r: Outcome<Message>)
      requires MessagesValid()
      modifies this`messages, this`messageSerial
      ensures MessagesValid() && messageSerial == old(messageSerial) + 1
      ensures r.Raised? <==>
                enforcesConstraints && m.contactId.Some? && Queries.GetContact(contacts, m.contactId.value).None?
      ensures r.Raised? ==> messages == old(messages)
      ensures r.Done? ==> r.value == m.ToRow(old(messageSerial), now) && messages == old(messages) + [r.value]
    {
      var id := messageSerial;
      KeyedSkip(messages, MessageId, id);
      messageSerial := messageSerial + 1;
      if enforcesConstraints && m.contactId.Some? && Queries.GetContact(contacts, m.contactId.value).None? {
        return Raised;
      }
      var row := m.ToRow(id, now);
      KeyedAppend(messages, MessageId, id, row);
      messages := messages + [row];
      r := Done(row);
    }

    method MarkMessageAsRead(id: int) returns (r: Option<Message>)
      requires MessagesValid()
      modifies this`messages
      ensures MessagesValid()
      ensures messages == MarkMessageRead(old(messages), id)
      ensures r == Queries.GetMessage(messages, id)
      ensures r.Some? ==> r.value.isRead
      ensures r.Some? <==> Queries.GetMessage(old(messages), id).Some?
    {
      var updated := MarkMessageRead(messages, id);
      KeyedSameIds(messages, updated, MessageId, messageSerial);
      messages := updated;
      r := Queries.GetMessage(messages, id);
    }

    // -------------------------------------------------------------- notifications

    method CreateNotification(n: NewNotification, now: Timestamp) returns (r: Notification)
      requires NotificationsValid()
      modifies this`notifications, this`notificationSerial
      ensures NotificationsValid() && notificationSerial == old(notificationSerial) + 1
      ensures r == n.ToRow(old(notificationSerial), now) && notifications == old(notifications) + [r]
    {
      r := n.ToRow(notificationSerial, now);
      KeyedAppend(notifications, NotificationId, notificationSerial, r);
      notifications := notifications + [r];
      notificationSerial := notificationSerial + 1;
    }

    method MarkNotificationAsRead(id: int) returns (r: Option<Notification>)
      requires NotificationsValid()
      modifies this`notifications
      ensures NotificationsValid()
      ensures notifications == MarkNotificationRead(old(notifications), id)
      ensures r == Queries.GetNotification(notifications, id)
      ensures r.Some? ==> r.value.isRead
      ensures r.Some? <==> Queries.GetNotification(old(notifications), id).Some?
    {
      var updated := MarkNotificationRead(notifications, id);
      KeyedSameIds(notifications, updated, NotificationId, notificationSerial);
      notifications := updated;
      r := Queries.GetNotification(notifications, id);
    }

    // -------------------------------------------------------------- settings

    /** `updateSetting(key, value)`: updates the row with the key, or inserts one. The insert
        of a missing value breaks `NOT NULL` and is rejected whatever the constraint mode. */
    method UpdateSetting(key: string, value: Option<string>, now: Timestamp) returns (r: Outcome<Setting>)
      requires SettingsValid()
      modifies this`settings, this`settingSerial
      ensures SettingsValid()
      ensures settingSerial == old(settingSerial) + (if Queries.GetSetting(old(settings), key).Some? then 0 else 1)
      ensures r.Raised? <==> Queries.GetSetting(old(settings), key).None? && value.None?
      ensures settings == if r.Raised? then old(settings)
                          else UpsertSetting(old(settings), key, value, old(settingSerial), now).value
      ensures r.Done? ==> Queries.GetSetting(settings, key) == Some(r.value)
      ensures r.Done? && value.Some? ==> r.value.value == value.value
    {
      var existing := Queries.GetSetting(settings, key);
      if existing.Some? {
        SettingUpdateKeeps(settings, key, value, now, settingSerial);
        settings := SetSettingValue(settings, key, value, now);
        r := Done(Queries.GetSetting(settings, key).value);
      } else {
        var id := settingSerial;
        settingSerial := settingSerial + 1;
        if value.None? {
          KeyedSkip(settings, SettingId, id);
          return Raised;
        }
        var row := Setting(id, key, value.value, None, now);
        SettingInsertKeeps(settings, row, id);
        settings := settings + [row];
        r := Done(row);
      }
    }

    // -------------------------------------------------------------- visitors and page views

    method CreateVisitor(v: NewVisitor, now: Timestamp) returns (r: Visitor)
      requires VisitorsValid()
      modifies this`visitors, this`visitorSerial
      ensures VisitorsValid() && visitorSerial == old(visitorSerial) + 1
      ensures r == v.ToRow(old(visitorSerial), now) && visitors == old(visitors) + [r]
    {
      r := v.ToRow(visitorSerial, now);
      KeyedAppend(visitors, VisitorId, visitorSerial, r);
      visitors := visitors + [r];
      visitorSerial := visitorSerial + 1;
    }

    method UpdateVisitor(id: int, patch: VisitorPatch, now: Timestamp) returns (r: Option<Visitor>)
      requires VisitorsValid()
      modifies this`visitors
      ensures VisitorsValid()
      ensures visitors == PatchVisitor(old(visitors), id, patch, now)
      ensures r == Queries.GetVisitor(visitors, id)
      ensures r.Some? <==> Queries.GetVisitor(old(visitors), id).Some?
    {
      var updated := PatchVisitor(visitors, id, patch, now);
      KeyedSameIds(visitors, updated, VisitorId, visitorSerial);
      visitors := updated;
      r := Queries.GetVisitor(visitors, id);
    }

    /** `createPageView`: rejected when it names a missing visitor and `REFERENCES` is
        enforced. */
    method CreatePageView(p: NewPageView, now: Timestamp) returns (r: Outcome<PageView>)
      requires PageViewsValid()
      modifies this`pageViews, this`pageViewSerial
      ensures PageViewsValid() && pageViewSerial == old(pageViewSerial) + 1
      ensures r.Raised? <==>
                enforcesConstraints && p.visitorId.Some? && Queries.GetVisitor(visitors, p.visitorId.value).None?
      ensures r.Raised? ==> pageViews == old(pageViews)
      ensures r.Done? ==> r.value == p.ToRow(old(pageViewSerial), now) && pageViews == old(pageViews) + [r.value]
    {
      var id := pageViewSerial;
      KeyedSkip(pageViews, PageViewId, id);
      pageViewSerial := pageViewSerial + 1;
      if enforcesConstraints && p.visitorId.Some? && Queries.GetVisitor(visitors, p.visitorId.value).None? {
        return Raised;
      }
      var row := p.ToRow(id, now);
      KeyedAppend(pageViews, PageViewId, id, row);
      pageViews := pageViews + [row];
      r := Done(row);
    }
  }
}
