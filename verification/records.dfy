/** The documents of the storefront's four collections (`watches`, `cart`,
    `orders`, `addresses`) and the document store that holds them.

    A collection is a `Table`: a map from document key to record, together
    with the order in which the store enumerates its documents. An
    equality query is a filter of that enumeration, and "the first match"
    (`snapshot.docs[0]`) is the head of the filtered sequence. Fields the
    source reads with `x || default` are stored with the default already
    applied; a text field the source treats as falsy when missing is the
    empty string. */
module Records {
  import opened Common

  /* ---------------------------------------------------------------------
     Records
     --------------------------------------------------------------------- */

  /** A `watches` document. `stock` is an `int` because the source tests
      `stock <= 0`; `featured` is the sort weight read as `featured || 0`. */
  datatype Product = Product(
    name: string,
    brand: string,
    category: string,
    price: real,
    stock: int,
    hidden: bool,
    featured: int,
    features: seq<string>)

  /** A `cart` document as the cart page holds it (`{id: doc.id, ...data}`). */
  datatype CartLine = CartLine(
    id: string,
    userId: string,
    watchId: string,
    name: string,
    brand: string,
    price: real,
    quantity: nat,
    addedAt: int,
    outOfStock: bool,
    hidden: bool,
    originalQuantity: Option<nat>)

  /** One entry of a purchase order's `items`. */
  datatype OrderItem = OrderItem(watchId: string, name: string, brand: string, price: real, quantity: nat)

  /** An `addresses` document. */
  datatype Address = Address(
    fullName: string,
    phone: string,
    address: string,
    address2: string,
    city: string,
    state: string,
    pincode: string,
    addressType: string)

  /** The price of a repair pickup: a number, or the "as per the issue"
      text the source stores when the service has no list price. */
  datatype Price = Fixed(amount: int) | Assessed(express: bool)

  /** The `type` of a service order; `Untyped` stands for a missing or
      unrecognised value. */
  datatype ServiceKind = PickupKind | StoreKind | Untyped

  /** An `orders` document, discriminated by its `type` field. `status` is
      "" when the field is missing. Purchase orders carry no `id` field and
      service orders carry no `orderNumber`, so an equality query on either
      field only ever matches the one variant. */
  datatype Order =
    | Purchase(
        userId: string,
        customerName: string,
        customerEmail: string,
        status: string,
        timestamp: int,
        updatedAt: Option<int>,
        orderNumber: string,
        items: seq<OrderItem>,
        subtotal: Option<real>,
        tax: Option<real>,
        totalAmount: Option<real>,
        paymentMethod: string,
        paymentStatus: string,
        shippingAddress: Address)
    | Service(
        kind: ServiceKind,
        id: Option<string>,
        userEmail: string,
        customerName: string,
        status: string,
        timestamp: int,
        updatedAt: Option<int>,
        service: string,
        express: bool,
        price: Option<Price>)
  {
    /** The `type` field as the source compares it. */
    function TypeName(): string {
      match this
      case Purchase(_, _, _, _, _, _, _, _, _, _, _, _, _, _) => "purchase"
      case Service(k, _, _, _, _, _, _, _, _, _) =>
        match k
        case PickupKind => "pickup"
        case StoreKind => "store"
        case Untyped => ""
    }

    /** The only mutation a committed order admits: a new `status` and
        `updatedAt`. */
    function WithStatus(s: string, now: int): (o: Order)
      ensures o.status == s && o.updatedAt == Some(now)
      ensures o.Purchase? == this.Purchase? && o.TypeName() == TypeName()
    {
      this.(status := s, updatedAt := Some(now))
    }
  }

  /** Σ price × quantity over a list of order items. */
  function ItemsSubtotal(items: seq<OrderItem>): real {
    if |items| == 0 then 0.0
    else items[0].price * (items[0].quantity as real) + ItemsSubtotal(items[1..])
  }

  /** The 18% GST the storefront adds to every subtotal. */
  function Tax(subtotal: real): real { subtotal * 18.0 / 100.0 }

  /** The order draft the cart page hands to checkout. */
  datatype CheckoutDraft = CheckoutDraft(
    userId: string,
    customerName: string,
    customerEmail: string,
    items: seq<OrderItem>,
    subtotal: real,
    tax: real,
    totalAmount: real)

  /** The two lookups by a customer-facing identifier: a purchase's order
      number, and the `id` field a service order carries. */
  predicate HasOrderNumber(o: Order, n: string) { o.Purchase? && o.orderNumber == n }

  predicate HasIdField(o: Order, id: string) { o.Service? && o.id == Some(id) }

  /** The two lookups as query predicates: `where('orderNumber', '==', n)`
      and `where('id', '==', id)`. */
  function ByOrderNumber(n: string): Order -> bool {
    o => HasOrderNumber(o, n)
  }

  function ByIdField(id: string): Order -> bool {
    o => HasIdField(o, id)
  }

  /** The signed-in user, as the auth collaborator exposes it. */
  datatype User = User(uid: string, email: string, displayName: string)

  /* ---------------------------------------------------------------------
     Collections
     --------------------------------------------------------------------- */

  /** A collection: documents by key, and the store's enumeration order. */
  datatype Table<T> = Table(rows: map<string, T>, scan: seq<string>)

  /** Every document is enumerated; keys of deleted documents may linger
      in the enumeration, where `Select` skips them. */
  ghost predicate WellFormed<T>(t: Table<T>) {
    forall k :: k in t.rows ==> k in t.scan
  }

  /** `getDoc(doc(db, coll, key))`. */
  function Get<T>(t: Table<T>, key: string): (r: Option<T>)
    ensures r.Some? <==> key in t.rows
    ensures r.Some? ==> r.value == t.rows[key]
  {
    if key in t.rows then Some(t.rows[key]) else None
  }

  /** The keys of the enumeration whose documents satisfy `p`, in order:
      `getDocs(query(coll, where(...)))`. */
  function Select<T>(keys: seq<string>, rows: map<string, T>, p: T -> bool): (r: seq<string>)
    ensures forall i :: 0 <= i < |r| ==> r[i] in rows && p(rows[r[i]])
    ensures forall i :: 0 <= i < |r| ==> r[i] in keys
    ensures forall k :: k in keys && k in rows && p(rows[k]) ==> k in r
  {
    if |keys| == 0 then []
    else
      var rest := Select(keys[1..], rows, p);
      if keys[0] in rows && p(rows[keys[0]]) then [keys[0]] + rest else rest
  }

  /** `snapshot.docs[0]` of an equality query, or `None` when the snapshot
      is empty. */
  function First<T>(t: Table<T>, p: T -> bool): (r: Option<string>)
    ensures r.Some? ==> r.value in t.rows && p(t.rows[r.value])
    ensures r.None? ==> forall k :: k in t.scan && k in t.rows ==> !p(t.rows[k])
    ensures r.None? && WellFormed(t) ==> forall k :: k in t.rows ==> !p(t.rows[k])
  {
    var hits := Select(t.scan, t.rows, p);
    if |hits| == 0 then None else Some(hits[0])
  }

  /** `updateDoc`/`addDoc` with a caller-chosen key: replaces the document,
      or adds a new one at the end of the enumeration. A key the
      enumeration still holds from a deleted document keeps its place, so
      no document is enumerated twice. */
  function Put<T>(t: Table<T>, key: string, v: T): (r: Table<T>)
    ensures r.rows == t.rows[key := v]
    ensures key in t.rows || key in t.scan ==> r.scan == t.scan
    ensures key !in t.rows && key !in t.scan ==> r.scan == t.scan + [key]
    ensures WellFormed(t) ==> WellFormed(r)
  {
    if key in t.rows || key in t.scan then Table(t.rows[key := v], t.scan)
    else Table(t.rows[key := v], t.scan + [key])
  }

  /** No key is enumerated twice. */
  predicate EnumeratedOnce(s: seq<string>) {
    forall i, j :: 0 <= i < j < |s| ==> s[i] != s[j]
  }

  /** Writes keep every document enumerated once: replacing a document,
      deleting one, and adding one again under a deleted key. */
  lemma PutEnumeratesOnce<T>(t: Table<T>, key: string, v: T)
    requires EnumeratedOnce(t.scan)
    ensures EnumeratedOnce(Put(t, key, v).scan)
    ensures EnumeratedOnce(Delete(Put(t, key, v), key).scan)
    ensures EnumeratedOnce(Put(Delete(Put(t, key, v), key), key, v).scan)
  {
  }

  /** A document added under a fresh key where nothing matched before is
      the first (and only) match afterwards. */
  lemma FirstOfPutFresh<T>(t: Table<T>, p: T -> bool, key: string, v: T)
    requires key !in t.rows && p(v)
    requires First(t, p).None?
    ensures First(Put(t, key, v), p) == Some(key)
  {
    var r := Put(t, key, v);
    assert key in r.scan && key in r.rows;
    var hit := First(r, p);
    assert hit.Some?;
  }

  /** `deleteDoc`. */
  function Delete<T>(t: Table<T>, key: string): (r: Table<T>)
    ensures r.rows == t.rows - {key}
    ensures WellFormed(t) ==> WellFormed(r)
  {
    Table(t.rows - {key}, t.scan)
  }

  /** A query followed by one `updateDoc` per hit: `f` is applied to every
      enumerated document satisfying `p`; every other document, and the
      enumeration, stay as they were. */
  function UpdateWhere<T>(t: Table<T>, p: T -> bool, f: T -> T): (r: Table<T>)
    ensures r.scan == t.scan && r.rows.Keys == t.rows.Keys
    ensures forall k :: k in t.rows && k in t.scan && p(t.rows[k]) ==> r.rows[k] == f(t.rows[k])
    ensures forall k :: k in t.rows && !(k in t.scan && p(t.rows[k])) ==> r.rows[k] == t.rows[k]
    ensures WellFormed(t) ==> WellFormed(r)
  {
    var hits := Select(t.scan, t.rows, p);
    Table(map k | k in t.rows :: if k in hits then f(t.rows[k]) else t.rows[k], t.scan)
  }

  /** A query followed by one `deleteDoc` per hit. */
  function DeleteWhere<T>(t: Table<T>, p: T -> bool): (r: Table<T>)
    ensures r.scan == t.scan
    ensures forall k :: k in r.rows <==> k in t.rows && !(k in t.scan && p(t.rows[k]))
    ensures forall k :: k in r.rows ==> r.rows[k] == t.rows[k]
    ensures WellFormed(t) ==> WellFormed(r)
  {
    var hits := Select(t.scan, t.rows, p);
    Table(map k | k in t.rows && k !in hits :: t.rows[k], t.scan)
  }

  /** The whole store the core reads and writes. */
  datatype Db = Db(
    watches: Table<Product>,
    cart: Table<CartLine>,
    orders: Table<Order>,
    addresses: Table<Address>)
}
