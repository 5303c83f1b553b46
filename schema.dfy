/** The rows of the thirteen tables (dist/index.js:46-182), the insert payloads the
    storage layer accepts (the row minus `id` and the defaulted timestamps), and the
    partial-update payloads. An insert payload's `Option` fields are the columns with a
    database default; `ToRow` fills them in the way the column defaults do. */
module Schema {
  import opened Common

  // ---------------------------------------------------------------- users

  datatype User = User(
    id: Id, username: string, password: string, email: Option<string>,
    role: string, createdAt: Timestamp)

  datatype NewUser = NewUser(
    username: string, password: string, email: Option<string>, role: Option<string>)
  {
    /** `role` defaults to "customer". */
    function ToRow(id: Id, now: Timestamp): (u: User)
      ensures u.id == id && u.username == username && u.createdAt == now
      ensures u.role == (if role.Some? then role.value else "customer")
    {
      User(id, username, password, email, if role.Some? then role.value else "customer", now)
    }
  }

  // ---------------------------------------------------------------- contacts

  datatype Contact = Contact(
    id: Id, name: string, email: string, phone: Option<string>,
    subject: string, message: string, createdAt: Timestamp)

  datatype NewContact = NewContact(
    name: string, email: string, phone: Option<string>, subject: string, message: string)
  {
    function ToRow(id: Id, now: Timestamp): (c: Contact)
      ensures c.id == id && c.name == name && c.subject == subject && c.createdAt == now
    {
      Contact(id, name, email, phone, subject, message, now)
    }
  }

  // ---------------------------------------------------------------- products

  datatype Product = Product(
    id: Id, name: string, description: string, category: string, price: Decimal,
    stockQuantity: int, images: seq<string>, specifications: Option<Json>,
    isActive: bool, weight: string, sku: string, createdAt: Timestamp, updatedAt: Timestamp)

  datatype NewProduct = NewProduct(
    name: string, description: string, category: string, price: Decimal,
    stockQuantity: Option<int>, images: Option<seq<string>>, specifications: Option<Json>,
    isActive: Option<bool>, weight: string, sku: string)
  {
    /** `stockQuantity` defaults to 0, `images` to [], `isActive` to true. */
    function ToRow(id: Id, now: Timestamp): (p: Product)
      ensures p.id == id && p.sku == sku && p.createdAt == now && p.updatedAt == now
      ensures p.stockQuantity == (if stockQuantity.Some? then stockQuantity.value else 0)
      ensures p.isActive == (isActive != Some(false))
    {
      Product(id, name, description, category, price,
              if stockQuantity.Some? then stockQuantity.value else 0,
              if images.Some? then images.value else [],
              specifications,
              if isActive.Some? then isActive.value else true,
              weight, sku, now, now)
    }
  }

  /** The fields a `PUT /api/products/:id` body may carry; an absent field is left alone. */
  datatype ProductPatch = ProductPatch(
    name: Option<string>, description: Option<string>, category: Option<string>,
    price: Option<Decimal>, stockQuantity: Option<int>, images: Option<seq<string>>,
    specifications: Option<Json>, isActive: Option<bool>, weight: Option<string>,
    sku: Option<string>)
  {
    /** The row after `UPDATE products SET <patch>, updated_at = now`. */
    function Apply(p: Product, now: Timestamp): (q: Product)
      ensures q.id == p.id && q.createdAt == p.createdAt && q.updatedAt == now
      ensures q.stockQuantity == (if stockQuantity.Some? then stockQuantity.value else p.stockQuantity)
      ensures q.sku == (if sku.Some? then sku.value else p.sku)
      ensures q.isActive == (if isActive.Some? then isActive.value else p.isActive)
      ensures this == ProductPatch(None, None, None, None, None, None, None, None, None, None) ==>
                q == p.(updatedAt := now)
    {
      Product(p.id,
              if name.Some? then name.value else p.name,
              if description.Some? then description.value else p.description,
              if category.Some? then category.value else p.category,
              if price.Some? then price.value else p.price,
              if stockQuantity.Some? then stockQuantity.value else p.stockQuantity,
              if images.Some? then images.value else p.images,
              if specifications.Some? then specifications else p.specifications,
              if isActive.Some? then isActive.value else p.isActive,
              if weight.Some? then weight.value else p.weight,
              if sku.Some? then sku.value else p.sku,
              p.createdAt, now)
    }
  }

  // ---------------------------------------------------------------- orders

  datatype Order = Order(
    id: Id, customerName: string, customerEmail: string, customerPhone: Option<string>,
    shippingAddress: Json, totalAmount: Decimal, status: string, paymentStatus: string,
    paymentMethod: Option<string>, notes: Option<string>,
    createdAt: Timestamp, updatedAt: Timestamp)

  datatype NewOrder = NewOrder(
    customerName: string, customerEmail: string, customerPhone: Option<string>,
    shippingAddress: Json, totalAmount: Decimal, status: Option<string>,
    paymentStatus: Option<string>, paymentMethod: Option<string>, notes: Option<string>)
  {
    /** `status` and `paymentStatus` default to "pending". */
    function ToRow(id: Id, now: Timestamp): (o: Order)
      ensures o.id == id && o.createdAt == now && o.updatedAt == now
      ensures o.status == (if status.Some? then status.value else "pending")
      ensures o.paymentStatus == (if paymentStatus.Some? then paymentStatus.value else "pending")
    {
      Order(id, customerName, customerEmail, customerPhone, shippingAddress, totalAmount,
            if status.Some? then status.value else "pending",
            if paymentStatus.Some? then paymentStatus.value else "pending",
            paymentMethod, notes, now, now)
    }
  }

  datatype OrderItem = OrderItem(
    id: Id, orderId: Id, productId: Id, quantity: int, unitPrice: Decimal, totalPrice: Decimal)

  datatype NewOrderItem = NewOrderItem(
    orderId: Id, productId: Id, quantity: int, unitPrice: Decimal, totalPrice: Decimal)
  {
    function ToRow(id: Id): (i: OrderItem)
      ensures i.id == id && i.orderId == orderId && i.productId == productId && i.quantity == quantity
    {
      OrderItem(id, orderId, productId, quantity, unitPrice, totalPrice)
    }
  }

  // ---------------------------------------------------------------- cart

  datatype CartItem = CartItem(
    id: Id, sessionId: string, productId: Id, quantity: int, createdAt: Timestamp)

  datatype NewCartItem = NewCartItem(sessionId: string, productId: Id, quantity: int)
  {
    function ToRow(id: Id, now: Timestamp): (c: CartItem)
      ensures c.id == id && c.sessionId == sessionId && c.productId == productId
      ensures c.quantity == quantity && c.createdAt == now
    {
      CartItem(id, sessionId, productId, quantity, now)
    }
  }

  // ---------------------------------------------------------------- inventory ledger

  datatype InventoryMovement = InventoryMovement(
    id: Id, productId: Id, movementType: string, quantity: int, reason: string,
    referenceId: Option<string>, createdAt: Timestamp)

  datatype NewMovement = NewMovement(
    productId: Id, movementType: string, quantity: int, reason: string,
    referenceId: Option<string>)
  {
    function ToRow(id: Id, now: Timestamp): (m: InventoryMovement)
      ensures m.id == id && m.productId == productId && m.movementType == movementType
      ensures m.quantity == quantity && m.reason == reason && m.referenceId == referenceId
      ensures m.createdAt == now
    {
      InventoryMovement(id, productId, movementType, quantity, reason, referenceId, now)
    }
  }

  // ---------------------------------------------------------------- showcase images

  datatype ShowcaseImage = ShowcaseImage(
    id: Id, title: string, description: Option<string>, imageUrl: string, order: int,
    isActive: bool, createdAt: Timestamp, updatedAt: Timestamp)

  datatype NewShowcaseImage = NewShowcaseImage(
    title: string, description: Option<string>, imageUrl: string, order: Option<int>,
    isActive: Option<bool>)
  {
    /** `order` defaults to 0, `isActive` to true. */
    function ToRow(id: Id, now: Timestamp): (s: ShowcaseImage)
      ensures s.id == id && s.createdAt == now && s.updatedAt == now
      ensures s.order == (if order.Some? then order.value else 0)
    {
      ShowcaseImage(id, title, description, imageUrl,
                    if order.Some? then order.value else 0,
                    if isActive.Some? then isActive.value else true, now, now)
    }
  }

  datatype ShowcasePatch = ShowcasePatch(
    title: Option<string>, description: Option<string>, imageUrl: Option<string>,
    order: Option<int>, isActive: Option<bool>)
  {
    function Apply(s: ShowcaseImage, now: Timestamp): (t: ShowcaseImage)
      ensures t.id == s.id && t.createdAt == s.createdAt && t.updatedAt == now
      ensures t.order == (if order.Some? then order.value else s.order)
      ensures t.isActive == (if isActive.Some? then isActive.value else s.isActive)
      ensures this == ShowcasePatch(None, None, None, None, None) ==> t == s.(updatedAt := now)
    {
      s.(title := if title.Some? then title.value else s.title,
         description := if description.Some? then description else s.description,
         imageUrl := if imageUrl.Some? then imageUrl.value else s.imageUrl,
         order := if order.Some? then order.value else s.order,
         isActive := if isActive.Some? then isActive.value else s.isActive,
         updatedAt := now)
    }
  }

  // ---------------------------------------------------------------- messages

  datatype Message = Message(
    id: Id, contactId: Option<Id>, fromAdmin: bool, message: string, isRead: bool,
    createdAt: Timestamp)

  datatype NewMessage = NewMessage(
    contactId: Option<Id>, fromAdmin: Option<bool>, message: string, isRead: Option<bool>)
  {
    /** `fromAdmin` and `isRead` default to false. */
    function ToRow(id: Id, now: Timestamp): (m: Message)
      ensures m.id == id && m.contactId == contactId && m.createdAt == now
      ensures m.isRead == (isRead == Some(true)) && m.fromAdmin == (fromAdmin == Some(true))
    {
      Message(id, contactId, if fromAdmin.Some? then fromAdmin.value else false, message,
              if isRead.Some? then isRead.value else false, now)
    }
  }

  // ---------------------------------------------------------------- notifications

  /** The column `type` is called `kind` here, `type` being a Dafny keyword. */
  datatype Notification = Notification(
    id: Id, title: string, message: string, kind: string, isRead: bool, createdAt: Timestamp)

  datatype NewNotification = NewNotification(
    title: string, message: string, kind: Option<string>, isRead: Option<bool>)
  {
    /** `type` defaults to "info", `isRead` to false. */
    function ToRow(id: Id, now: Timestamp): (n: Notification)
      ensures n.id == id && n.title == title && n.message == message && n.createdAt == now
      ensures n.kind == (if kind.Some? then kind.value else "info")
      ensures n.isRead == (isRead == Some(true))
    {
      Notification(id, title, message, if kind.Some? then kind.value else "info",
                   if isRead.Some? then isRead.value else false, now)
    }
  }

  // ---------------------------------------------------------------- settings

  datatype Setting = Setting(
    id: Id, key: string, value: string, description: Option<string>, updatedAt: Timestamp)

  // ---------------------------------------------------------------- analytics

  datatype Visitor = Visitor(
    id: Id, sessionId: string, ipAddress: Option<string>, userAgent: Option<string>,
    referrer: Option<string>, country: Option<string>, city: Option<string>,
    device: Option<string>, browser: Option<string>, os: Option<string>,
    visitedPages: seq<string>, timeOnSite: Option<int>, isReturning: bool,
    createdAt: Timestamp, updatedAt: Timestamp)

  datatype NewVisitor = NewVisitor(
    sessionId: string, ipAddress: Option<string>, userAgent: Option<string>,
    referrer: Option<string>, country: Option<string>, city: Option<string>,
    device: Option<string>, browser: Option<string>, os: Option<string>,
    visitedPages: Option<seq<string>>, timeOnSite: Option<int>, isReturning: Option<bool>)
  {
    /** `isReturning` defaults to false. */
    function ToRow(id: Id, now: Timestamp): (v: Visitor)
      ensures v.id == id && v.country == country && v.createdAt == now && v.updatedAt == now
      ensures v.isReturning == (isReturning == Some(true))
    {
      Visitor(id, sessionId, ipAddress, userAgent, referrer, country, city, device, browser,
              os, if visitedPages.Some? then visitedPages.value else [], timeOnSite,
              if isReturning.Some? then isReturning.value else false, now, now)
    }
  }

  datatype VisitorPatch = VisitorPatch(
    country: Option<string>, city: Option<string>, device: Option<string>,
    browser: Option<string>, os: Option<string>, visitedPages: Option<seq<string>>,
    timeOnSite: Option<int>, isReturning: Option<bool>)
  {
    function Apply(v: Visitor, now: Timestamp): (w: Visitor)
      ensures w.id == v.id && w.createdAt == v.createdAt && w.updatedAt == now
      ensures w.country == (if country.Some? then country else v.country)
      ensures w.device == (if device.Some? then device else v.device)
      ensures w.browser == (if browser.Some? then browser else v.browser)
      ensures w.isReturning == (if isReturning.Some? then isReturning.value else v.isReturning)
      ensures this == VisitorPatch(None, None, None, None, None, None, None, None) ==> w == v.(updatedAt := now)
    {
      v.(country := if country.Some? then country else v.country,
         city := if city.Some? then city else v.city,
         device := if device.Some? then device else v.device,
         browser := if browser.Some? then browser else v.browser,
         os := if os.Some? then os else v.os,
         visitedPages := if visitedPages.Some? then visitedPages.value else v.visitedPages,
         timeOnSite := if timeOnSite.Some? then timeOnSite else v.timeOnSite,
         isReturning := if isReturning.Some? then isReturning.value else v.isReturning,
         updatedAt := now)
    }
  }

  datatype PageView = PageView(
    id: Id, visitorId: Option<Id>, page: string, title: Option<string>,
    timeSpent: Option<int>, timestamp: Timestamp)

  datatype NewPageView = NewPageView(
    visitorId: Option<Id>, page: string, title: Option<string>, timeSpent: Option<int>)
  {
    function ToRow(id: Id, now: Timestamp): (p: PageView)
      ensures p.id == id && p.visitorId == visitorId && p.page == page && p.timestamp == now
    {
      PageView(id, visitorId, page, title, timeSpent, now)
    }
  }
}
