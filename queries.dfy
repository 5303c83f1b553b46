/** The read side of `DatabaseStorage` (dist/index.js:255-449): every getter is a
    function of the table it selects from. `ORDER BY created_at DESC` is a
    permutation whose timestamps never increase; a lookup by key returns the first
    matching row, or `None` where the JavaScript returns `undefined`. */
module Queries {
  import opened Common
  import opened Schema
  import Seqs

  /** JavaScript truthiness of an optional numeric filter: `if (productId)` skips the
      filter when the id is absent or 0. */
  predicate Truthy(x: Option<int>)
  {
    x.Some? && x.value != 0
  }

  // ---------------------------------------------------------------- users

  function GetUser(users: seq<User>, id: int): (r: Option<User>)
    ensures r.Some? ==> r.value in users && r.value.id == id
    ensures r.None? <==> forall i :: 0 <= i < |users| ==> users[i].id != id
  {
    Seqs.First(users, (u: User) => u.id == id)
  }

  function GetUserByUsername(users: seq<User>, username: string): (r: Option<User>)
    ensures r.Some? ==> r.value in users && r.value.username == username
    ensures r.None? <==> forall i :: 0 <= i < |users| ==> users[i].username != username
  {
    Seqs.First(users, (u: User) => u.username == username)
  }

  // ---------------------------------------------------------------- contacts

  function GetContacts(contacts: seq<Contact>): (r: seq<Contact>)
    ensures multiset(r) == multiset(contacts)
    ensures forall i, j :: 0 <= i < j < |r| ==> r[i].createdAt >= r[j].createdAt
  {
    Seqs.SortDescBy(contacts, (c: Contact) => c.createdAt)
  }

  function GetContact(contacts: seq<Contact>, id: int): (r: Option<Contact>)
    ensures r.Some? ==> r.value in contacts && r.value.id == id
    ensures r.None? <==> forall i :: 0 <= i < |contacts| ==> contacts[i].id != id
  {
    Seqs.First(contacts, (c: Contact) => c.id == id)
  }

  // ---------------------------------------------------------------- products

  function GetProducts(products: seq<Product>): (r: seq<Product>)
    ensures multiset(r) == multiset(products)
    ensures forall i, j :: 0 <= i < j < |r| ==> r[i].createdAt >= r[j].createdAt
  {
    Seqs.SortDescBy(products, (p: Product) => p.createdAt)
  }

  function GetProduct(products: seq<Product>, id: int): (r: Option<Product>)
    ensures r.Some? ==> r.value in products && r.value.id == id
    ensures r.None? <==> forall i :: 0 <= i < |products| ==> products[i].id != id
  {
    Seqs.First(products, (p: Product) => p.id == id)
  }

  // ---------------------------------------------------------------- orders

  function GetOrders(orders: seq<Order>): (r: seq<Order>)
    ensures multiset(r) == multiset(orders)
    ensures forall i, j :: 0 <= i < j < |r| ==> r[i].createdAt >= r[j].createdAt
  {
    Seqs.SortDescBy(orders, (o: Order) => o.createdAt)
  }

  function GetOrder(orders: seq<Order>, id: int): (r: Option<Order>)
    ensures r.Some? ==> r.value in orders && r.value.id == id
    ensures r.None? <==> forall i :: 0 <= i < |orders| ==> orders[i].id != id
  {
    Seqs.First(orders, (o: Order) => o.id == id)
  }

  /** The items of one order, in table order (the query has no `ORDER BY`). */
  function GetOrderItems(items: seq<OrderItem>, orderId: int): (r: seq<OrderItem>)
    ensures multiset(r) <= multiset(items)
    ensures forall i :: 0 <= i < |r| ==> r[i].orderId == orderId
    ensures forall i :: 0 <= i < |items| && items[i].orderId == orderId ==> items[i] in r
    ensures forall i :: multiset(r)[i] == if i.orderId == orderId then multiset(items)[i] else 0
  {
    var p := (i: OrderItem) => i.orderId == orderId;
    Seqs.FilterMultiset(items, p);
    Seqs.Filter(items, p)
  }

  // ---------------------------------------------------------------- cart

  function GetCartItems(cart: seq<CartItem>, sessionId: string): (r: seq<CartItem>)
    ensures multiset(r) <= multiset(cart)
    ensures forall i :: 0 <= i < |r| ==> r[i].sessionId == sessionId
    ensures forall i :: 0 <= i < |cart| && cart[i].sessionId == sessionId ==> cart[i] in r
    ensures forall c :: multiset(r)[c] == if c.sessionId == sessionId then multiset(cart)[c] else 0
  {
    var p := (c: CartItem) => c.sessionId == sessionId;
    Seqs.FilterMultiset(cart, p);
    Seqs.Filter(cart, p)
  }

  /** The row `addToCart` merges into: the first with the same session and product. */
  function FindCartRow(cart: seq<CartItem>, sessionId: string, productId: Id): (r: Option<CartItem>)
    ensures r.Some? ==> r.value in cart && r.value.sessionId == sessionId && r.value.productId == productId
    ensures r.None? <==> forall i :: 0 <= i < |cart| ==>
                           !(cart[i].sessionId == sessionId && cart[i].productId == productId)
  {
    Seqs.First(cart, (c: CartItem) => c.sessionId == sessionId && c.productId == productId)
  }

  /** The cart row with this id: what `UPDATE cart ... RETURNING` hands back. */
  function GetCartRow(cart: seq<CartItem>, id: int): (r: Option<CartItem>)
    ensures r.Some? ==> r.value in cart && r.value.id == id
    ensures r.None? <==> forall i :: 0 <= i < |cart| ==> cart[i].id != id
  {
    Seqs.First(cart, (c: CartItem) => c.id == id)
  }

  // ---------------------------------------------------------------- inventory ledger

  /** `getInventoryMovements(productId)`: the movements of one product when the id is
      truthy, otherwise all of them; newest first either way. */
  function GetInventoryMovements(inventory: seq<InventoryMovement>, productId: Option<int>)
    : (r: seq<InventoryMovement>)
    ensures forall i, j :: 0 <= i < j < |r| ==> r[i].createdAt >= r[j].createdAt
    ensures forall m :: m in r <==> m in inventory && (Truthy(productId) ==> m.productId == productId.value)
    ensures multiset(r) <= multiset(inventory)
    ensures !Truthy(productId) ==> multiset(r) == multiset(inventory)
    ensures forall m :: multiset(r)[m] ==
              if Truthy(productId) && m.productId != productId.value then 0 else multiset(inventory)[m]
  {
    var key := if productId.Some? then productId.value else 0;
    var p := (m: InventoryMovement) => m.productId == key;
    var rows := if Truthy(productId) then Seqs.Filter(inventory, p) else inventory;
    Seqs.FilterElements(inventory, p);
    Seqs.FilterMultiset(inventory, p);
    var r := Seqs.SortDescBy(rows, (m: InventoryMovement) => m.createdAt);
    Seqs.SameElements(r, rows);
    r
  }

  // ---------------------------------------------------------------- showcase images

  /** `ORDER BY "order" ASC, created_at DESC`. */
  predicate ShowcaseBefore(a: ShowcaseImage, b: ShowcaseImage)
  {
    a.order < b.order || (a.order == b.order && a.createdAt >= b.createdAt)
  }

  function GetShowcaseImages(images: seq<ShowcaseImage>): (r: seq<ShowcaseImage>)
    ensures multiset(r) == multiset(images)
    ensures forall i, j :: 0 <= i < j < |r| ==>
              r[i].order < r[j].order || (r[i].order == r[j].order && r[i].createdAt >= r[j].createdAt)
  {
    assert Seqs.Total(ShowcaseBefore);
    assert Seqs.Transitive(ShowcaseBefore);
    Seqs.SortBySorted(images, ShowcaseBefore);
    Seqs.SortedAll(Seqs.SortBy(images, ShowcaseBefore), ShowcaseBefore);
    Seqs.SortBy(images, ShowcaseBefore)
  }

  function GetShowcaseImage(images: seq<ShowcaseImage>, id: int): (r: Option<ShowcaseImage>)
    ensures r.Some? ==> r.value in images && r.value.id == id
    ensures r.None? <==> forall i :: 0 <= i < |images| ==> images[i].id != id
  {
    Seqs.First(images, (s: ShowcaseImage) => s.id == id)
  }

  // ---------------------------------------------------------------- messages

  /** `getMessages(contactId)`: the messages of one contact when the id is truthy,
      otherwise all of them; newest first either way. */
  function GetMessages(messages: seq<Message>, contactId: Option<int>): (r: seq<Message>)
    ensures forall i, j :: 0 <= i < j < |r| ==> r[i].createdAt >= r[j].createdAt
    ensures forall m :: m in r <==>
              m in messages && (Truthy(contactId) ==> m.contactId.Some? && m.contactId.value == contactId.value)
    ensures multiset(r) <= multiset(messages)
    ensures !Truthy(contactId) ==> multiset(r) == multiset(messages)
    ensures forall m :: multiset(r)[m] ==
              if Truthy(contactId) && m.contactId != Some(contactId.value) then 0 else multiset(messages)[m]
  {
    var key := if contactId.Some? then contactId.value else 0;
    var p := (m: Message) => m.contactId.Some? && m.contactId.value == key;
    var rows := if Truthy(contactId) then Seqs.Filter(messages, p) else messages;
    Seqs.FilterElements(messages, p);
    Seqs.FilterMultiset(messages, p);
    var r := Seqs.SortDescBy(rows, (m: Message) => m.createdAt);
    Seqs.SameElements(r, rows);
    r
  }

  /** The message with this id: what `UPDATE messages ... RETURNING` hands back. */
  function GetMessage(messages: seq<Message>, id: int): (r: Option<Message>)
    ensures r.Some? ==> r.value in messages && r.value.id == id
    ensures r.None? <==> forall i :: 0 <= i < |messages| ==> messages[i].id != id
  {
    Seqs.First(messages, (m: Message) => m.id == id)
  }

  datatype ContactWithMessages = ContactWithMessages(contact: Contact, messages: seq<Message>)

  /** `getContactWithMessages(contactId)`: `undefined` when the contact is absent,
      otherwise the contact with the messages `getMessages(contactId)` returns. */
  function GetContactWithMessages(contacts: seq<Contact>, messages: seq<Message>, contactId: int)
    : (r: Option<ContactWithMessages>)
    ensures r.None? <==> forall i :: 0 <= i < |contacts| ==> contacts[i].id != contactId
    ensures r.Some? ==> r.value.contact in contacts && r.value.contact.id == contactId
    ensures r.Some? && contactId != 0 ==>
              forall m :: m in r.value.messages <==> m in messages && m.contactId == Some(contactId)
    ensures r.Some? ==>
              forall m :: multiset(r.value.messages)[m] ==
                if contactId != 0 && m.contactId != Some(contactId) then 0 else multiset(messages)[m]
    ensures r.Some? ==> forall i, j :: 0 <= i < j < |r.value.messages| ==>
              r.value.messages[i].createdAt >= r.value.messages[j].createdAt
  {
    match GetContact(contacts, contactId)
    case None => None
    case Some(c) => Some(ContactWithMessages(c, GetMessages(messages, Some(contactId))))
  }

  // ---------------------------------------------------------------- notifications

  function GetNotifications(notifications: seq<Notification>): (r: seq<Notification>)
    ensures multiset(r) == multiset(notifications)
    ensures forall i, j :: 0 <= i < j < |r| ==> r[i].createdAt >= r[j].createdAt
  {
    Seqs.SortDescBy(notifications, (n: Notification) => n.createdAt)
  }

  /** The notification with this id: what `UPDATE notifications ... RETURNING` hands back. */
  function GetNotification(notifications: seq<Notification>, id: int): (r: Option<Notification>)
    ensures r.Some? ==> r.value in notifications && r.value.id == id
    ensures r.None? <==> forall i :: 0 <= i < |notifications| ==> notifications[i].id != id
  {
    Seqs.First(notifications, (n: Notification) => n.id == id)
  }

  // ---------------------------------------------------------------- settings

  /** `getSettings()` has no `ORDER BY`: the table as stored. */
  function GetSettings(settings: seq<Setting>): seq<Setting>
  {
    settings
  }

  function GetSetting(settings: seq<Setting>, key: string): (r: Option<Setting>)
    ensures r.Some? ==> r.value in settings && r.value.key == key
    ensures r.None? <==> forall i :: 0 <= i < |settings| ==> settings[i].key != key
  {
    Seqs.First(settings, (s: Setting) => s.key == key)
  }

  // ---------------------------------------------------------------- visitors and page views

  function GetVisitors(visitors: seq<Visitor>): (r: seq<Visitor>)
    ensures multiset(r) == multiset(visitors)
    ensures forall i, j :: 0 <= i < j < |r| ==> r[i].createdAt >= r[j].createdAt
  {
    Seqs.SortDescBy(visitors, (v: Visitor) => v.createdAt)
  }

  function GetVisitor(visitors: seq<Visitor>, id: int): (r: Option<Visitor>)
    ensures r.Some? ==> r.value in visitors && r.value.id == id
    ensures r.None? <==> forall i :: 0 <= i < |visitors| ==> visitors[i].id != id
  {
    Seqs.First(visitors, (v: Visitor) => v.id == id)
  }

  /** `getPageViews(visitorId)`: one visitor's views when the id is truthy, otherwise
      all of them; newest first either way. */
  function GetPageViews(pageViews: seq<PageView>, visitorId: Option<int>): (r: seq<PageView>)
    ensures forall i, j :: 0 <= i < j < |r| ==> r[i].timestamp >= r[j].timestamp
    ensures forall v :: v in r <==>
              v in pageViews && (Truthy(visitorId) ==> v.visitorId.Some? && v.visitorId.value == visitorId.value)
    ensures !Truthy(visitorId) ==> multiset(r) == multiset(pageViews)
    ensures forall v :: multiset(r)[v] ==
              if Truthy(visitorId) && v.visitorId != Some(visitorId.value) then 0 else multiset(pageViews)[v]
  {
    var key := if visitorId.Some? then visitorId.value else 0;
    var p := (v: PageView) => v.visitorId.Some? && v.visitorId.value == key;
    var rows := if Truthy(visitorId) then Seqs.Filter(pageViews, p) else pageViews;
    Seqs.FilterElements(pageViews, p);
    Seqs.FilterMultiset(pageViews, p);
    var r := Seqs.SortDescBy(rows, (v: PageView) => v.timestamp);
    Seqs.SameElements(r, rows);
    r
  }
}
