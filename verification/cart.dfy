/** The cart page: each line is classified against its product record,
    reconciled to what is still purchasable, totalled over the lines that
    remain available, edited within the stock and per-product limits, and
    finally turned into the draft the checkout page starts from. */
module Cart {
  import opened Common
  import opened Records

  /** The most of one product a cart line may hold. */
  const MaxPerProduct: nat := 10

  /* ---------------------------------------------------------------------
     Availability of one line
     --------------------------------------------------------------------- */

  /** `checkItemAvailability`: what the product record says about a line. */
  datatype Availability =
    | Missing              // the product no longer exists
    | Hidden               // the product exists but is hidden
    | SoldOut              // visible, with `stock <= 0`
    | OverStock(stock: nat)  // visible, in stock, but fewer than the line asks for
    | InStock(stock: nat)    // visible, and enough for the line

  function CheckItemAvailability(watches: map<string, Product>, line: CartLine): (a: Availability)
    ensures a.Missing? <==> line.watchId !in watches
    ensures a.Hidden? <==> line.watchId in watches && watches[line.watchId].hidden
    ensures a.SoldOut? <==>
      line.watchId in watches && !watches[line.watchId].hidden && watches[line.watchId].stock <= 0
    ensures a.OverStock? <==>
      line.watchId in watches && !watches[line.watchId].hidden
      && 0 < watches[line.watchId].stock < line.quantity
    ensures a.InStock? <==>
      line.watchId in watches && !watches[line.watchId].hidden
      && 0 < watches[line.watchId].stock && line.quantity <= watches[line.watchId].stock
    ensures a.OverStock? || a.InStock? ==> a.stock == watches[line.watchId].stock
  {
    if line.watchId !in watches then Missing
    else
      var p := watches[line.watchId];
      if p.hidden then Hidden
      else if p.stock <= 0 then SoldOut
      else if line.quantity > p.stock then OverStock(p.stock)
      else InStock(p.stock)
  }

  /** The result's `outOfStock` flag. */
  predicate Unavailable(a: Availability) { a.Missing? || a.Hidden? || a.SoldOut? }

  /* ---------------------------------------------------------------------
     Reconciliation
     --------------------------------------------------------------------- */

  /** A line the page has set aside: flagged, emptied, and remembering the
      quantity it had. */
  predicate SetAside(after: CartLine, before: CartLine) {
    after.outOfStock && after.quantity == 0 && after.originalQuantity == Some(before.quantity)
  }

  /** A line still on offer: unflagged and within the product's stock,
      which it equals when it asked for more. */
  predicate OnOffer(after: CartLine, before: CartLine, watches: map<string, Product>) {
    && !after.outOfStock && !after.hidden
    && after.watchId in watches
    && after.quantity <= watches[after.watchId].stock
    && after.quantity == Min(before.quantity, watches[after.watchId].stock)
    && after.originalQuantity == before.originalQuantity
  }

  /** Every field the reconciliation does not touch. */
  predicate SameItem(a: CartLine, b: CartLine) {
    a.id == b.id && a.userId == b.userId && a.watchId == b.watchId && a.name == b.name
    && a.brand == b.brand && a.price == b.price && a.addedAt == b.addedAt
  }

  /** One iteration of `checkCartItemsAvailability`. */
  function ReconcileLine(watches: map<string, Product>, line: CartLine): (r: CartLine)
    ensures SameItem(r, line)
    ensures Unavailable(CheckItemAvailability(watches, line)) <==> SetAside(r, line)
    ensures !Unavailable(CheckItemAvailability(watches, line)) <==> OnOffer(r, line, watches)
    ensures r.hidden <==> CheckItemAvailability(watches, line).Hidden?
  {
    match CheckItemAvailability(watches, line)
    case Hidden =>
      line.(outOfStock := true, hidden := true, originalQuantity := Some(line.quantity), quantity := 0)
    case Missing =>
      line.(outOfStock := true, hidden := false, originalQuantity := Some(line.quantity), quantity := 0)
    case SoldOut =>
      line.(outOfStock := true, hidden := false, originalQuantity := Some(line.quantity), quantity := 0)
    case OverStock(stock) =>
      line.(quantity := stock, outOfStock := false, hidden := false)
    case InStock(_) =>
      line.(outOfStock := false, hidden := false)
  }

  /** `checkCartItemsAvailability`, on the page's lines. */
  function Reconcile(watches: map<string, Product>, lines: seq<CartLine>): (r: seq<CartLine>)
    ensures |r| == |lines|
    ensures forall i :: 0 <= i < |r| ==> r[i] == ReconcileLine(watches, lines[i])
  {
    if |lines| == 0 then [] else [ReconcileLine(watches, lines[0])] + Reconcile(watches, lines[1..])
  }

  /** After reconciliation every line is either set aside or on offer. */
  lemma ReconcileTwoStates(watches: map<string, Product>, lines: seq<CartLine>, i: nat)
    requires i < |lines|
    ensures var r := Reconcile(watches, lines);
            SameItem(r[i], lines[i])
            && (SetAside(r[i], lines[i]) || OnOffer(r[i], lines[i], watches))
  {
  }

  /** A line's outcome depends only on its own product record. */
  lemma ReconcileLineIsLocal(w1: map<string, Product>, w2: map<string, Product>, line: CartLine)
    requires line.watchId in w1 <==> line.watchId in w2
    requires line.watchId in w1 ==> w1[line.watchId] == w2[line.watchId]
    ensures ReconcileLine(w1, line) == ReconcileLine(w2, line)
  {
  }

  /** A second pass against the same inventory changes no quantity and no
      flag. */
  lemma ReconcileStable(watches: map<string, Product>, lines: seq<CartLine>, i: nat)
    requires i < |lines|
    ensures var once := Reconcile(watches, lines);
            var twice := Reconcile(watches, once);
            twice[i].quantity == once[i].quantity
            && twice[i].outOfStock == once[i].outOfStock
            && twice[i].hidden == once[i].hidden
  {
  }

  /** The remembered quantity does not survive a second pass: a line set
      aside once remembers 0 after the next. */
  lemma ReconcileForgetsOriginalQuantity(watches: map<string, Product>, line: CartLine)
    requires line.watchId !in watches && line.quantity > 0
    ensures ReconcileLine(watches, line).originalQuantity == Some(line.quantity)
    ensures ReconcileLine(watches, ReconcileLine(watches, line)).originalQuantity == Some(0)
  {
  }

  /** Whether reconciliation asks the store to shrink the line to
      `stock`: the only write it makes. */
  predicate Clamps(watches: map<string, Product>, line: CartLine) {
    CheckItemAvailability(watches, line).OverStock?
  }

  /** The keys of the lines a pass clamps. */
  function ClampedIds(watches: map<string, Product>, lines: seq<CartLine>): (ids: set<string>)
    ensures forall k :: k in ids <==> exists i :: 0 <= i < |lines| && lines[i].id == k && Clamps(watches, lines[i])
  {
    set i | 0 <= i < |lines| && Clamps(watches, lines[i]) :: lines[i].id
  }

  /** The `updateDoc` calls of a reconciliation pass: every clamped line's
      document gets the product's stock as its quantity. */
  function PersistClamps(cart: Table<CartLine>, watches: map<string, Product>, lines: seq<CartLine>): (r: Table<CartLine>)
    ensures r.scan == cart.scan && r.rows.Keys == cart.rows.Keys
    ensures forall k :: k in cart.rows ==> r.rows[k] == cart.rows[k].(quantity := r.rows[k].quantity)
    ensures forall k :: k in cart.rows && k !in ClampedIds(watches, lines) ==> r.rows[k] == cart.rows[k]
    decreases |lines|
  {
    if |lines| == 0 then cart
    else
      ClampedIdsTail(watches, lines);
      PersistClamps(ClampOne(cart, watches, lines[0]), watches, lines[1..])
  }

  /** The write for one line: its document's quantity becomes the stock
      when the line is clamped and the document exists. */
  function ClampOne(cart: Table<CartLine>, watches: map<string, Product>, l: CartLine): (c: Table<CartLine>)
    ensures c.scan == cart.scan && c.rows.Keys == cart.rows.Keys
    ensures forall k :: k in cart.rows ==> c.rows[k] == cart.rows[k].(quantity := c.rows[k].quantity)
    ensures forall k :: k in cart.rows && (k != l.id || !Clamps(watches, l)) ==> c.rows[k] == cart.rows[k]
    ensures Clamps(watches, l) && l.id in cart.rows ==> c.rows[l.id].quantity == watches[l.watchId].stock
  {
    if Clamps(watches, l) && l.id in cart.rows
    then Put(cart, l.id, cart.rows[l.id].(quantity := watches[l.watchId].stock as nat))
    else cart
  }

  lemma ClampedIdsTail(watches: map<string, Product>, lines: seq<CartLine>)
    requires |lines| > 0
    ensures ClampedIds(watches, lines[1..]) <= ClampedIds(watches, lines)
  {
    forall k | k in ClampedIds(watches, lines[1..]) ensures k in ClampedIds(watches, lines) {
      var j :| 0 <= j < |lines| - 1 && lines[1..][j].id == k && Clamps(watches, lines[1..][j]);
      assert lines[j + 1] == lines[1..][j];
    }
  }

  /** A clamped line whose id no other line shares is written with exactly
      the product's stock. */
  lemma {:induction false} PersistClampsWritesStock(cart: Table<CartLine>, watches: map<string, Product>, lines: seq<CartLine>, i: nat)
    requires i < |lines| && lines[i].id in cart.rows && Clamps(watches, lines[i])
    requires forall j :: 0 <= j < |lines| && j != i ==> lines[j].id != lines[i].id
    ensures PersistClamps(cart, watches, lines).rows[lines[i].id].quantity == watches[lines[i].watchId].stock
    decreases |lines|
  {
    var l := lines[0];
    var c := ClampOne(cart, watches, l);
    if i == 0 {
      var r := PersistClamps(c, watches, lines[1..]);
      assert forall j :: 0 <= j < |lines| - 1 ==> lines[1..][j].id != l.id by {
        forall j | 0 <= j < |lines| - 1 ensures lines[1..][j].id != l.id {
          assert lines[1..][j] == lines[j + 1];
        }
      }
      assert r.rows[l.id] == c.rows[l.id];
    } else {
      forall j | 0 <= j < |lines| - 1 && j != i - 1
        ensures lines[1..][j].id != lines[1..][i - 1].id
      {
        assert lines[1..][j] == lines[j + 1];
      }
      PersistClampsWritesStock(c, watches, lines[1..], i - 1);
    }
  }

  /* ---------------------------------------------------------------------
     Summary and counts
     --------------------------------------------------------------------- */

  /** A line the summary and the counters take into account. */
  predicate Counted(l: CartLine) { !l.outOfStock && !l.hidden }

  function LineAmount(l: CartLine): real { l.price * (l.quantity as real) }

  /** Σ price × quantity over the counted lines. */
  function Subtotal(lines: seq<CartLine>): real {
    if |lines| == 0 then 0.0
    else (if Counted(lines[0]) then LineAmount(lines[0]) else 0.0) + Subtotal(lines[1..])
  }

  /** Σ quantity over the counted lines: the navbar and header count. */
  function AvailableQuantity(lines: seq<CartLine>): nat {
    if |lines| == 0 then 0
    else (if Counted(lines[0]) then lines[0].quantity else 0) + AvailableQuantity(lines[1..])
  }

  /** Whether some counted line has a positive quantity. */
  function HasCheckoutable(lines: seq<CartLine>): (b: bool)
    ensures b <==> exists i :: 0 <= i < |lines| && Counted(lines[i]) && lines[i].quantity > 0
  {
    if |lines| == 0 then false
    else if Counted(lines[0]) && lines[0].quantity > 0 then true
    else
      var b := HasCheckoutable(lines[1..]);
      assert b ==> exists i :: 0 <= i < |lines| && Counted(lines[i]) && lines[i].quantity > 0 by {
        if b {
          var j :| 0 <= j < |lines| - 1 && Counted(lines[1..][j]) && lines[1..][j].quantity > 0;
          assert lines[j + 1] == lines[1..][j];
        }
      }
      assert (exists i :: 0 <= i < |lines| && Counted(lines[i]) && lines[i].quantity > 0) ==> b by {
        if exists i :: 0 <= i < |lines| && Counted(lines[i]) && lines[i].quantity > 0 {
          var i :| 0 <= i < |lines| && Counted(lines[i]) && lines[i].quantity > 0;
          assert i > 0;
          assert lines[1..][i - 1] == lines[i];
        }
      }
      b
  }

  /** What `updateCartSummary` shows. */
  datatype Summary = Summary(subtotal: real, tax: real, total: real, canCheckout: bool)

  function CartSummary(lines: seq<CartLine>): (s: Summary)
    ensures s.subtotal == Subtotal(lines)
    ensures s.tax == s.subtotal * 18.0 / 100.0 && s.total == s.subtotal + s.tax
    ensures s.canCheckout <==> exists i :: 0 <= i < |lines| && Counted(lines[i]) && lines[i].quantity > 0
  {
    var subtotal := Subtotal(lines);
    Summary(subtotal, Tax(subtotal), subtotal + Tax(subtotal), HasCheckoutable(lines))
  }

  /** `updateCartCounts`: the navbar and the header both show the counted
      quantity; the arguments the callers pass are not read. */
  function CartCounts(lines: seq<CartLine>): (r: (nat, nat))
    ensures r.0 == r.1 == AvailableQuantity(lines)
  {
    var n := AvailableQuantity(lines);
    (n, n)
  }

  /** How much of a line survives reconciliation: its quantity capped at the
      stock when the product is present, visible and in stock, else none. */
  function Kept(watches: map<string, Product>, l: CartLine): nat {
    if l.watchId in watches && !watches[l.watchId].hidden && watches[l.watchId].stock > 0
    then Min(l.quantity, watches[l.watchId].stock)
    else 0
  }

  function KeptSubtotal(watches: map<string, Product>, lines: seq<CartLine>): real {
    if |lines| == 0 then 0.0
    else lines[0].price * (Kept(watches, lines[0]) as real) + KeptSubtotal(watches, lines[1..])
  }

  function KeptQuantity(watches: map<string, Product>, lines: seq<CartLine>): nat {
    if |lines| == 0 then 0 else Kept(watches, lines[0]) + KeptQuantity(watches, lines[1..])
  }

  lemma ReconcileLineKept(watches: map<string, Product>, l: CartLine)
    ensures var r := ReconcileLine(watches, l);
            (if Counted(r) then r.quantity else 0) == Kept(watches, l)
            && (if Counted(r) then LineAmount(r) else 0.0) == l.price * (Kept(watches, l) as real)
  {
  }

  /** After reconciliation the summary totals exactly the purchasable part
      of every line, priced at the line's price. */
  lemma {:induction false} ReconciledSubtotal(watches: map<string, Product>, lines: seq<CartLine>)
    ensures Subtotal(Reconcile(watches, lines)) == KeptSubtotal(watches, lines)
    ensures AvailableQuantity(Reconcile(watches, lines)) == KeptQuantity(watches, lines)
  {
    if |lines| > 0 {
      var r := Reconcile(watches, lines);
      assert r[1..] == Reconcile(watches, lines[1..]);
      ReconcileLineKept(watches, lines[0]);
      ReconciledSubtotal(watches, lines[1..]);
    }
  }

  /* ---------------------------------------------------------------------
     Editing the cart
     --------------------------------------------------------------------- */

  /** Why a cart action changed nothing. */
  datatype CartFailure =
    | LineNotFound
    | ProductMissing
    | ProductHidden
    | NotEnoughStock(available: int)
    | OverLimit
    | WriteFailed
    | NothingAvailable   // no purchasable line before the re-check
    | AllUnavailable     // none left after it

  /** The page's lines and the `cart` collection. */
  datatype Page = Page(lines: seq<CartLine>, cart: Table<CartLine>)

  /** `checkStockAvailability(watchId, requested)`: the stock, when the
      product exists, is visible and holds at least `requested`. */
  function CheckStockAvailability(watches: map<string, Product>, watchId: string, requested: int): (r: Result<int, CartFailure>)
    ensures r.Ok? <==> watchId in watches && !watches[watchId].hidden && watches[watchId].stock >= requested
    ensures r.Ok? ==> r.value == watches[watchId].stock
    ensures watchId !in watches ==> r == Err(ProductMissing)
    ensures watchId in watches && watches[watchId].hidden ==> r == Err(ProductHidden)
  {
    if watchId !in watches then Err(ProductMissing)
    else
      var p := watches[watchId];
      if p.hidden then Err(ProductHidden)
      else if p.stock < requested then Err(NotEnoughStock(p.stock))
      else Ok(p.stock)
  }

  /** `cartData.findIndex(item => item.id === id)`. */
  function FindLine(lines: seq<CartLine>, id: string): (r: Option<nat>)
    ensures r.Some? ==> r.value < |lines| && lines[r.value].id == id
    ensures r.Some? ==> forall j :: 0 <= j < r.value ==> lines[j].id != id
    ensures r.None? <==> forall j :: 0 <= j < |lines| ==> lines[j].id != id
  {
    if |lines| == 0 then None
    else if lines[0].id == id then Some(0)
    else match FindLine(lines[1..], id)
      case None =>
        assert forall j :: 1 <= j < |lines| ==> lines[j] == lines[1..][j - 1];
        None
      case Some(i) => Some(i + 1)
  }

  /** `updateQuantity(id, newQuantity)`. A negative request does nothing;
      0 sets the line aside on the page only; anything else must pass the
      stock check and the per-product limit, and is then written to the
      store and clears both flags. */
  function UpdateQuantity(p: Page, watches: map<string, Product>, id: string, newQuantity: int): (r: Result<Page, CartFailure>)
    ensures newQuantity < 0 ==> r == Ok(p)
    ensures newQuantity >= 0 && FindLine(p.lines, id).None? ==> r == Err(LineNotFound)
    ensures r.Ok? && newQuantity >= 0 ==>
      var i := FindLine(p.lines, id).value;
      |r.value.lines| == |p.lines|
      && (forall j :: 0 <= j < |p.lines| && j != i ==> r.value.lines[j] == p.lines[j])
      && r.value.lines[i].quantity == newQuantity
      && (newQuantity == 0 ==> r.value.cart == p.cart && r.value.lines[i].outOfStock)
      && (newQuantity > 0 ==>
            && 1 <= newQuantity <= MaxPerProduct
            && CheckStockAvailability(watches, p.lines[i].watchId, newQuantity).Ok?
            && Counted(r.value.lines[i])
            && id in p.cart.rows
            && r.value.cart.rows == p.cart.rows[id := p.cart.rows[id].(quantity := newQuantity)])
    ensures newQuantity == 0 && FindLine(p.lines, id).Some? ==>
      var i := FindLine(p.lines, id).value;
      && r.Ok?
      && r.value.lines[i].hidden == p.lines[i].hidden
      && r.value.lines[i].originalQuantity == p.lines[i].originalQuantity
    ensures newQuantity > 0 && FindLine(p.lines, id).Some? ==>
      var i := FindLine(p.lines, id).value;
      var check := CheckStockAvailability(watches, p.lines[i].watchId, newQuantity);
      && (r.Ok? <==> check.Ok? && newQuantity <= MaxPerProduct && id in p.cart.rows)
      && (check.Err? ==> r == Err(check.error))
      && (check.Ok? && newQuantity > MaxPerProduct ==> r == Err(OverLimit))
    ensures r.Ok? && newQuantity >= 0 ==>
      var i := FindLine(p.lines, id).value;
      r.value.lines[i].(quantity := 0, outOfStock := false, hidden := false)
      == p.lines[i].(quantity := 0, outOfStock := false, hidden := false)
  {
    if newQuantity < 0 then Ok(p)
    else match FindLine(p.lines, id)
      case None => Err(LineNotFound)
      case Some(i) =>
        var l := p.lines[i];
        if newQuantity == 0 then
          Ok(p.(lines := p.lines[i := l.(outOfStock := true, quantity := 0)]))
        else match CheckStockAvailability(watches, l.watchId, newQuantity)
          case Err(e) => Err(e)
          case Ok(_) =>
            if newQuantity > MaxPerProduct then Err(OverLimit)
            else if id !in p.cart.rows then Err(WriteFailed)
            else
              Ok(Page(p.lines[i := l.(quantity := newQuantity, outOfStock := false, hidden := false)],
                      Put(p.cart, id, p.cart.rows[id].(quantity := newQuantity))))
  }

  /** Repeating a quantity edit that went through changes nothing more:
      the same line is found, the same checks pass, the same value is
      written. */
  lemma UpdateQuantityIdempotent(p: Page, watches: map<string, Product>, id: string, newQuantity: int)
    requires UpdateQuantity(p, watches, id, newQuantity).Ok?
    ensures var once := UpdateQuantity(p, watches, id, newQuantity).value;
            UpdateQuantity(once, watches, id, newQuantity) == Ok(once)
  {
    if newQuantity >= 0 {
      var once := UpdateQuantity(p, watches, id, newQuantity).value;
      var i := FindLine(p.lines, id).value;
      SameIdsSameFind(p.lines, once.lines, id);
      var l := once.lines[i];
      if newQuantity == 0 {
        assert once.lines[i := l.(outOfStock := true, quantity := 0)] == once.lines;
      } else {
        assert once.lines[i := l.(quantity := newQuantity, outOfStock := false, hidden := false)] == once.lines;
        assert once.cart.rows[id].(quantity := newQuantity) == once.cart.rows[id];
        assert Put(once.cart, id, once.cart.rows[id].(quantity := newQuantity)) == once.cart;
      }
    }
  }

  lemma {:induction false} SameIdsSameFind(a: seq<CartLine>, b: seq<CartLine>, id: string)
    requires |a| == |b| && forall j :: 0 <= j < |a| ==> a[j].id == b[j].id
    ensures FindLine(a, id) == FindLine(b, id)
  {
    if |a| > 0 {
      SameIdsSameFind(a[1..], b[1..], id);
    }
  }

  /** The page's lines without those carrying `id`. */
  function Without(lines: seq<CartLine>, id: string): (r: seq<CartLine>)
    ensures |r| <= |lines|
    ensures forall l :: l in r <==> l in lines && l.id != id
  {
    if |lines| == 0 then []
    else (if lines[0].id == id then [] else [lines[0]]) + Without(lines[1..], id)
  }

  /** The page's lines carrying `id`. */
  function Only(lines: seq<CartLine>, id: string): (r: seq<CartLine>)
    ensures forall l :: l in r <==> l in lines && l.id == id
  {
    if |lines| == 0 then []
    else (if lines[0].id == id then [lines[0]] else []) + Only(lines[1..], id)
  }

  lemma SubtotalAppend(a: seq<CartLine>, b: seq<CartLine>)
    ensures Subtotal(a + b) == Subtotal(a) + Subtotal(b)
    ensures AvailableQuantity(a + b) == AvailableQuantity(a) + AvailableQuantity(b)
  {
    if |a| == 0 {
      assert a + b == b;
    } else {
      assert (a + b)[1..] == a[1..] + b;
      SubtotalAppend(a[1..], b);
    }
  }

  /** Removing a line takes exactly its own share off the totals. */
  lemma {:induction false} RemoveSplitsTotals(lines: seq<CartLine>, id: string)
    ensures Subtotal(lines) == Subtotal(Without(lines, id)) + Subtotal(Only(lines, id))
    ensures AvailableQuantity(lines) == AvailableQuantity(Without(lines, id)) + AvailableQuantity(Only(lines, id))
  {
    if |lines| > 0 {
      var head := [lines[0]];
      RemoveSplitsTotals(lines[1..], id);
      if lines[0].id == id {
        SubtotalAppend([], Without(lines[1..], id));
        SubtotalAppend(head, Only(lines[1..], id));
      } else {
        SubtotalAppend(head, Without(lines[1..], id));
        SubtotalAppend([], Only(lines[1..], id));
      }
      assert lines == head + lines[1..];
      SubtotalAppend(head, lines[1..]);
    }
  }

  /** `removeFromCart(id)`, `confirmed` being the answer to its dialog. */
  function RemoveFromCart(p: Page, id: string, confirmed: bool): (r: Page)
    ensures !confirmed ==> r == p
    ensures confirmed ==> r.cart.rows == p.cart.rows - {id}
    ensures confirmed ==> forall l :: l in r.lines <==> l in p.lines && l.id != id
    ensures IsSubsequence(r.lines, p.lines)
    ensures r.cart.scan == p.cart.scan
  {
    if !confirmed then
      IsSubsequenceOfSelf(p.lines);
      p
    else
      WithoutIsFilter(p.lines, id);
      FilterIsSubsequence(p.lines, OtherThan(id));
      Page(Without(p.lines, id), Delete(p.cart, id))
  }

  function OtherThan(id: string): CartLine -> bool {
    (l: CartLine) => l.id != id
  }

  /** `cartData.filter(item => item.id !== id)`: dropping the lines with
      `id` is the order-keeping filter. */
  lemma {:induction false} WithoutIsFilter(lines: seq<CartLine>, id: string)
    ensures Without(lines, id) == Filter(lines, OtherThan(id))
  {
    if |lines| > 0 {
      WithoutIsFilter(lines[1..], id);
    }
  }

  /** The keys of the page's lines. */
  function LineIds(lines: seq<CartLine>): (ids: set<string>)
    ensures forall k :: k in ids <==> exists i :: 0 <= i < |lines| && lines[i].id == k
  {
    set i | 0 <= i < |lines| :: lines[i].id
  }

  /** `clearCart()`, `confirmed` being the answer to its dialog: every line
      the page shows is deleted, and nothing else. */
  function ClearCart(p: Page, confirmed: bool): (r: Page)
    ensures !confirmed ==> r == p
    ensures confirmed ==> r.lines == [] && Subtotal(r.lines) == 0.0 && AvailableQuantity(r.lines) == 0
    ensures confirmed ==> forall k :: k in r.cart.rows <==>
      k in p.cart.rows && forall i :: 0 <= i < |p.lines| ==> p.lines[i].id != k
  {
    if !confirmed then p
    else
      var ids := LineIds(p.lines);
      Page([], Table(map k | k in p.cart.rows && k !in ids :: p.cart.rows[k], p.cart.scan))
  }

  /* ---------------------------------------------------------------------
     Proceeding to checkout
     --------------------------------------------------------------------- */

  /** A line checkout takes: counted and non-empty. */
  predicate Purchasable(l: CartLine) { Counted(l) && l.quantity > 0 }

  function PurchasableLines(lines: seq<CartLine>): (r: seq<CartLine>)
    ensures |r| <= |lines|
    ensures forall l :: l in r <==> l in lines && Purchasable(l)
  {
    if |lines| == 0 then []
    else (if Purchasable(lines[0]) then [lines[0]] else []) + PurchasableLines(lines[1..])
  }

  function ToItem(l: CartLine): OrderItem {
    OrderItem(l.watchId, l.name, l.brand, l.price, l.quantity)
  }

  function ToItems(lines: seq<CartLine>): (items: seq<OrderItem>)
    ensures |items| == |lines|
    ensures forall i :: 0 <= i < |lines| ==> items[i] == ToItem(lines[i])
  {
    if |lines| == 0 then [] else [ToItem(lines[0])] + ToItems(lines[1..])
  }

  lemma {:induction false} PurchasableSubtotal(lines: seq<CartLine>)
    ensures ItemsSubtotal(ToItems(PurchasableLines(lines))) == Subtotal(lines)
  {
    if |lines| > 0 {
      PurchasableSubtotal(lines[1..]);
      var l := lines[0];
      var rest := PurchasableLines(lines[1..]);
      assert Subtotal(lines) == (if Counted(l) then LineAmount(l) else 0.0) + Subtotal(lines[1..]);
      if Purchasable(l) {
        assert PurchasableLines(lines) == [l] + rest;
        ItemsSubtotalCons(l, rest);
      } else {
        assert PurchasableLines(lines) == rest;
        if Counted(l) {
          assert LineAmount(l) == 0.0 by { assert l.quantity == 0; }
        }
      }
    }
  }

  lemma ItemsSubtotalCons(l: CartLine, rest: seq<CartLine>)
    ensures ItemsSubtotal(ToItems([l] + rest)) == LineAmount(l) + ItemsSubtotal(ToItems(rest))
  {
    var items := ToItems([l] + rest);
    assert items[0] == ToItem(l);
    assert items[1..] == ToItems(rest);
  }

  /** The order draft built from the refreshed lines: the purchasable
      ones, priced as the summary of those lines shows; none is drafted
      when no line is left. */
  function DraftOrder(lines: seq<CartLine>, user: User): (r: Result<CheckoutDraft, CartFailure>)
    ensures r.Ok? <==> PurchasableLines(lines) != []
    ensures r.Err? ==> r.error == AllUnavailable
    ensures r.Ok? ==>
      && r.value.items == ToItems(PurchasableLines(lines))
      && r.value.subtotal == CartSummary(lines).subtotal
      && r.value.tax == CartSummary(lines).tax
      && r.value.totalAmount == CartSummary(lines).total
      && r.value.userId == user.uid && r.value.customerEmail == user.email
      && r.value.customerName == (if user.displayName != "" then user.displayName else user.email)
    ensures r.Ok? ==> forall it :: it in r.value.items ==> it.quantity > 0
  {
    var final := PurchasableLines(lines);
    if final == [] then Err(AllUnavailable)
    else
      var items := ToItems(final);
      var subtotal := ItemsSubtotal(items);
      assert forall k :: 0 <= k < |final| ==> final[k] in final && Purchasable(final[k]);
      PurchasableSubtotal(lines);
      Ok(CheckoutDraft(user.uid,
                       if user.displayName != "" then user.displayName else user.email,
                       user.email, items, subtotal, Tax(subtotal), subtotal + Tax(subtotal)))
  }

  /** `checkCartItemsAvailability()` on the page: every line is reconciled
      against the inventory, and every clamp is written to the line's
      document; nothing else in the store changes. */
  function CheckCartItemsAvailability(p: Page, watches: map<string, Product>): (r: Page)
    ensures |r.lines| == |p.lines|
    ensures forall i :: 0 <= i < |p.lines| ==>
      SameItem(r.lines[i], p.lines[i])
      && (SetAside(r.lines[i], p.lines[i]) || OnOffer(r.lines[i], p.lines[i], watches))
    ensures forall i :: 0 <= i < |p.lines| ==>
      (SetAside(r.lines[i], p.lines[i]) <==> Unavailable(CheckItemAvailability(watches, p.lines[i])))
      && (OnOffer(r.lines[i], p.lines[i], watches) <==> !Unavailable(CheckItemAvailability(watches, p.lines[i])))
      && (r.lines[i].hidden <==> CheckItemAvailability(watches, p.lines[i]).Hidden?)
    ensures r.cart.scan == p.cart.scan && r.cart.rows.Keys == p.cart.rows.Keys
    ensures forall k :: k in p.cart.rows ==> r.cart.rows[k] == p.cart.rows[k].(quantity := r.cart.rows[k].quantity)
    ensures forall k :: k in p.cart.rows && k !in ClampedIds(watches, p.lines) ==> r.cart.rows[k] == p.cart.rows[k]
  {
    var lines := Reconcile(watches, p.lines);
    assert forall i :: 0 <= i < |p.lines| ==> lines[i] == ReconcileLine(watches, p.lines[i]);
    Page(lines, PersistClamps(p.cart, watches, p.lines))
  }

  /** After the re-check, the store and the page agree on every clamped
      line whose id no other line shares: both hold the product's stock. */
  lemma RecheckStoreMatchesPage(p: Page, watches: map<string, Product>, i: nat)
    requires i < |p.lines| && p.lines[i].id in p.cart.rows && Clamps(watches, p.lines[i])
    requires forall j :: 0 <= j < |p.lines| && j != i ==> p.lines[j].id != p.lines[i].id
    ensures var r := CheckCartItemsAvailability(p, watches);
            r.cart.rows[p.lines[i].id].quantity == r.lines[i].quantity == watches[p.lines[i].watchId].stock
  {
    PersistClampsWritesStock(p.cart, watches, p.lines, i);
    assert Reconcile(watches, p.lines)[i] == ReconcileLine(watches, p.lines[i]);
  }

  /** What `proceedToCheckout()` leaves behind: the page and store after
      its re-check, and the draft, or the reason none was made. */
  datatype Proceeding = Proceeding(page: Page, draft: Result<CheckoutDraft, CartFailure>)

  /** `proceedToCheckout()`: gives up, writing nothing, when nothing is
      purchasable; otherwise re-checks every line against `watches`
      (persisting the clamps) and drafts an order from the lines still
      purchasable, priced as the refreshed summary shows. */
  function ProceedToCheckout(p: Page, watches: map<string, Product>, user: User): (r: Proceeding)
    ensures PurchasableLines(p.lines) == [] ==> r == Proceeding(p, Err(NothingAvailable))
    ensures PurchasableLines(p.lines) != [] ==> r.page == CheckCartItemsAvailability(p, watches)
    ensures r.draft.Ok? <==>
      PurchasableLines(p.lines) != [] && PurchasableLines(Reconcile(watches, p.lines)) != []
    ensures r.draft == Err(AllUnavailable) <==>
      PurchasableLines(p.lines) != [] && PurchasableLines(Reconcile(watches, p.lines)) == []
    ensures r.draft.Ok? ==>
      var refreshed := Reconcile(watches, p.lines);
      && r.draft.value.items == ToItems(PurchasableLines(refreshed))
      && |r.draft.value.items| > 0
      && r.draft.value.subtotal == CartSummary(refreshed).subtotal
      && r.draft.value.tax == CartSummary(refreshed).tax
      && r.draft.value.totalAmount == CartSummary(refreshed).total
      && r.draft.value.userId == user.uid && r.draft.value.customerEmail == user.email
      && r.draft.value.customerName == (if user.displayName != "" then user.displayName else user.email)
  {
    if PurchasableLines(p.lines) == [] then Proceeding(p, Err(NothingAvailable))
    else
      var q := CheckCartItemsAvailability(p, watches);
      Proceeding(q, DraftOrder(q.lines, user))
  }

  /** Every drafted item is a line the inventory can still supply in full. */
  lemma DraftWithinStock(p: Page, watches: map<string, Product>, user: User, it: OrderItem)
    requires ProceedToCheckout(p, watches, user).draft.Ok?
    requires it in ProceedToCheckout(p, watches, user).draft.value.items
    ensures it.watchId in watches && !watches[it.watchId].hidden
    ensures 0 < it.quantity <= watches[it.watchId].stock
  {
    var refreshed := Reconcile(watches, p.lines);
    var final := PurchasableLines(refreshed);
    var k :| 0 <= k < |final| && ToItems(final)[k] == it;
    assert final[k] in refreshed;
    var i :| 0 <= i < |refreshed| && refreshed[i] == final[k];
    assert OnOffer(refreshed[i], p.lines[i], watches);
  }
}
