/** The luxury catalogue page: the filtered and sorted listing of luxury
    watches, the price-range controls that feed it, and the page's own
    "add to cart" path with its stock and per-product limit checks and the
    cart badge it refreshes. */
module Luxury {
  import opened Common
  import opened Records
  import Sorting
  import Cart

  /** The bounds of the price controls. */
  const PriceRangeMin: int := 0
  const PriceRangeMax: int := 1000000

  /** A listed watch: the document key and the document (`{id, ...data}`). */
  datatype Watch = Watch(id: string, product: Product)

  /** The page's filter state. A price of 0 means "no bound", as the source
      tests the prices for truthiness. */
  datatype Filters = Filters(minPrice: int, maxPrice: int, brands: seq<string>, features: seq<string>)

  /* ---------------------------------------------------------------------
     Brand names
     --------------------------------------------------------------------- */

  /** `brand.charAt(0).toUpperCase() + brand.slice(1).toLowerCase()`. */
  function Capitalize(b: string): (r: string)
    ensures |r| == |b|
    ensures |b| > 0 ==> r[0] == ToUpperChar(b[0])
    ensures forall i :: 0 < i < |b| ==> r[i] == ToLowerChar(b[i])
  {
    if |b| == 0 then "" else [ToUpperChar(b[0])] + ToLower(b[1..])
  }

  function Capitalized(brands: seq<string>): (r: seq<string>)
    ensures |r| == |brands|
    ensures forall i :: 0 <= i < |brands| ==> r[i] == Capitalize(brands[i])
  {
    seq(|brands|, i requires 0 <= i < |brands| => Capitalize(brands[i]))
  }

  predicate IsLower(s: string) { ToLower(s) == s }

  lemma ToLowerIdempotent(s: string)
    ensures IsLower(ToLower(s))
  {
  }

  /** Capitalising only changes letter case. */
  lemma CapitalizeSameLetters(b: string)
    ensures ToLower(Capitalize(b)) == ToLower(b)
    ensures Capitalize(ToLower(b)) == Capitalize(b)
  {
  }

  /** The two brand paths agree whenever the stored brand is written the
      way capitalisation writes it (one upper-case initial, then lower
      case): then the exact match of the capitalised selection and the
      case-blind match of the lower-cased selection select the same
      watches. */
  lemma BrandPathsAgree(brands: seq<string>, brand: string)
    requires forall i :: 0 <= i < |brands| ==> IsLower(brands[i])
    requires Capitalize(brand) == brand
    ensures brand in Capitalized(brands) <==> ToLower(brand) in brands
  {
    var caps := Capitalized(brands);
    if brand in caps {
      var i :| 0 <= i < |caps| && caps[i] == brand;
      CapitalizeSameLetters(brands[i]);
    }
    if ToLower(brand) in brands {
      var i :| 0 <= i < |brands| && brands[i] == ToLower(brand);
      CapitalizeSameLetters(brand);
      assert caps[i] == brand;
    }
  }

  /** A brand that is not written with a single capital (an acronym such
      as "IWC", or a two-word name) is found by the case-blind path that
      more than ten selected brands take, and missed by the capitalised
      path of one to ten brands. */
  lemma AcronymBrandOnlyMatchedCaseBlind()
    ensures ToLower("IWC") in ["iwc"]
    ensures "IWC" !in Capitalized(["iwc"])
  {
    assert ToLower("IWC") == "iwc";
    var caps := Capitalized(["iwc"]);
    assert caps[0][1] == 'w';
  }

  /* ---------------------------------------------------------------------
     The catalogue query
     --------------------------------------------------------------------- */

  /** The part of the filter the document store evaluates: luxury category,
      not hidden, the non-zero price bounds, and, for one to ten brands,
      membership of the capitalised brand names. */
  predicate QueryMatch(f: Filters, p: Product) {
    && p.category == "luxury"
    && !p.hidden
    && (f.minPrice != 0 ==> p.price >= f.minPrice as real)
    && (f.maxPrice != 0 ==> p.price <= f.maxPrice as real)
    && (1 <= |f.brands| <= 10 ==> p.brand in Capitalized(f.brands))
  }

  function ServerQuery(f: Filters): Product -> bool {
    p => QueryMatch(f, p)
  }

  /** Some selected feature, lower-cased, occurs inside some feature of
      the watch, lower-cased. */
  predicate HasFeature(selected: seq<string>, own: seq<string>) {
    exists i, j | 0 <= i < |selected| && 0 <= j < |own| :: Includes(ToLower(own[j]), ToLower(selected[i]))
  }

  /** The part of the filter the page applies to the fetched watches: the
      case-blind brand test for more than ten brands, and the feature
      test when features are selected. */
  predicate ClientMatch(f: Filters, p: Product) {
    && (|f.brands| > 10 ==> ToLower(p.brand) in f.brands)
    && (|f.features| > 0 ==> HasFeature(f.features, p.features))
  }

  function ClientFilter(f: Filters): Watch -> bool {
    (w: Watch) => ClientMatch(f, w.product)
  }

  /** The watches a query returns, in the store's enumeration order. */
  function ToWatches(keys: seq<string>, rows: map<string, Product>): (r: seq<Watch>)
    requires forall i :: 0 <= i < |keys| ==> keys[i] in rows
    ensures |r| == |keys|
    ensures forall i :: 0 <= i < |keys| ==> r[i] == Watch(keys[i], rows[keys[i]])
  {
    seq(|keys|, i requires 0 <= i < |keys| => Watch(keys[i], rows[keys[i]]))
  }

  function Snapshot(t: Table<Product>, f: Filters): seq<Watch> {
    ToWatches(Select(t.scan, t.rows, ServerQuery(f)), t.rows)
  }

  /** `sortSelect?.value || 'featured'`. */
  function SortMode(sortValue: string): string {
    if sortValue == "" then "featured" else sortValue
  }

  function FeaturedKey(w: Watch): int { w.product.featured }

  /** `loadLuxuryWatches`: the query, then the client-side filters, then,
      for the 'featured' ordering, a stable sort by `featured`, largest
      first. The other orderings are the store's, which the enumeration
      order of `t` stands for. */
  function LoadLuxuryWatches(t: Table<Product>, f: Filters, sortValue: string): (r: seq<Watch>)
    ensures |r| <= |Snapshot(t, f)|
    ensures SortMode(sortValue) == "featured" ==> Sorting.SortedDesc(r, FeaturedKey)
    ensures SortMode(sortValue) != "featured" ==> IsSubsequence(r, Snapshot(t, f))
  {
    var watches := Filter(Snapshot(t, f), ClientFilter(f));
    FilterIsSubsequence(Snapshot(t, f), ClientFilter(f));
    if SortMode(sortValue) == "featured" then Sorting.SortDesc(watches, FeaturedKey) else watches
  }

  /** A watch is listed when its document is enumerated and passes both
      parts of the filter. */
  ghost predicate Listed(t: Table<Product>, f: Filters, w: Watch) {
    && w.id in t.scan
    && w.id in t.rows
    && t.rows[w.id] == w.product
    && QueryMatch(f, w.product)
    && ClientMatch(f, w.product)
  }

  lemma InSnapshot(t: Table<Product>, f: Filters, w: Watch)
    ensures w in Snapshot(t, f) <==> w.id in t.scan && w.id in t.rows && t.rows[w.id] == w.product && QueryMatch(f, w.product)
  {
    var keys := Select(t.scan, t.rows, ServerQuery(f));
    var snap := Snapshot(t, f);
    if w in snap {
      var i :| 0 <= i < |snap| && snap[i] == w;
      assert ServerQuery(f)(t.rows[keys[i]]);
    }
    if w.id in t.scan && w.id in t.rows && t.rows[w.id] == w.product && QueryMatch(f, w.product) {
      assert ServerQuery(f)(t.rows[w.id]);
      var i :| 0 <= i < |keys| && keys[i] == w.id;
      assert snap[i] == w;
    }
  }

  /** Exactly the listed watches are shown, whatever the ordering. */
  lemma LoadedExactly(t: Table<Product>, f: Filters, sortValue: string, w: Watch)
    ensures w in LoadLuxuryWatches(t, f, sortValue) <==> Listed(t, f, w)
  {
    var snap := Snapshot(t, f);
    var watches := Filter(snap, ClientFilter(f));
    assert w in LoadLuxuryWatches(t, f, sortValue) <==> w in watches by {
      if SortMode(sortValue) == "featured" {
        var sorted := Sorting.SortDesc(watches, FeaturedKey);
        assert w in sorted <==> w in multiset(sorted);
      }
    }
    InSnapshot(t, f, w);
    if w in watches {
      var i :| 0 <= i < |watches| && watches[i] == w;
      assert ClientFilter(f)(w);
    }
    if w in snap && ClientMatch(f, w.product) {
      var i :| 0 <= i < |snap| && snap[i] == w;
      assert ClientFilter(f)(snap[i]);
    }
  }

  /** Without filters the page lists every visible luxury watch. */
  lemma UnfilteredListsVisibleLuxury(t: Table<Product>, sortValue: string, w: Watch)
    ensures w in LoadLuxuryWatches(t, Filters(0, 0, [], []), sortValue)
        <==> w.id in t.scan && w.id in t.rows && t.rows[w.id] == w.product
             && w.product.category == "luxury" && !w.product.hidden
  {
    LoadedExactly(t, Filters(0, 0, [], []), sortValue, w);
  }

  /** More than ten brands: a listed watch's lower-cased brand is one of
      them. */
  lemma ManyBrandsCaseBlind(t: Table<Product>, f: Filters, sortValue: string, w: Watch)
    requires |f.brands| > 10
    requires w in LoadLuxuryWatches(t, f, sortValue)
    ensures ToLower(w.product.brand) in f.brands
  {
    LoadedExactly(t, f, sortValue, w);
  }

  /** Selected features: every listed watch has one of them. */
  lemma FeaturesFilter(t: Table<Product>, f: Filters, sortValue: string, w: Watch)
    requires |f.features| > 0
    ensures w in LoadLuxuryWatches(t, f, sortValue)
        <==> w.id in t.scan && w.id in t.rows && t.rows[w.id] == w.product
             && QueryMatch(f, w.product) && (|f.brands| > 10 ==> ToLower(w.product.brand) in f.brands)
             && HasFeature(f.features, w.product.features)
  {
    LoadedExactly(t, f, sortValue, w);
  }

  /** The 'featured' sort keeps watches of equal weight in the order the
      store returned them. */
  lemma FeaturedTiesKeepStoreOrder(t: Table<Product>, f: Filters, sortValue: string, k: int)
    requires SortMode(sortValue) == "featured"
    ensures Sorting.WithKey(LoadLuxuryWatches(t, f, sortValue), FeaturedKey, k)
         == Sorting.WithKey(Filter(Snapshot(t, f), ClientFilter(f)), FeaturedKey, k)
  {
    Sorting.SortDescIsStable(Filter(Snapshot(t, f), ClientFilter(f)), FeaturedKey, k);
  }

  /* ---------------------------------------------------------------------
     Price controls
     --------------------------------------------------------------------- */

  /** `parseInt(text) || fallback`: `None` stands for a text that does not
      parse (NaN); NaN and 0 both give the fallback. */
  function ParseOr(typed: Option<int>, fallback: int): (v: int)
    ensures v == fallback <==> typed.None? || typed == Some(0) || typed == Some(fallback)
    ensures v != fallback ==> typed == Some(v)
  {
    match typed
    case None => fallback
    case Some(n) => if n == 0 then fallback else n
  }

  /** The typed-price handler: the parsed value, or the fallback, clamped
      into the price range. */
  function ClampTyped(typed: Option<int>, fallback: int): (v: int)
    ensures PriceRangeMin <= v <= PriceRangeMax
    ensures PriceRangeMin <= ParseOr(typed, fallback) <= PriceRangeMax ==> v == ParseOr(typed, fallback)
    ensures ParseOr(typed, fallback) < PriceRangeMin ==> v == PriceRangeMin
    ensures ParseOr(typed, fallback) > PriceRangeMax ==> v == PriceRangeMax
  {
    Max(PriceRangeMin, Min(PriceRangeMax, ParseOr(typed, fallback)))
  }

  /** Typing a non-zero clamped value again leaves it alone (a 0 reads
      as "nothing typed"). */
  lemma ClampTypedIdempotent(typed: Option<int>, fallback: int)
    requires ClampTyped(typed, fallback) != 0
    ensures ClampTyped(Some(ClampTyped(typed, fallback)), fallback) == ClampTyped(typed, fallback)
  {
  }

  /** A zero typed into the maximum box lifts the cap to the top of the
      range rather than setting it to zero. */
  lemma TypedZeroMaxIsNoCap()
    ensures ClampTyped(Some(0), PriceRangeMax) == PriceRangeMax
  {
  }

  /** The two range sliders, `lo` and `hi`. */
  datatype Range = Range(lo: int, hi: int)

  /** The minimum slider's input handler: a minimum above the maximum is
      pulled down to it. */
  function OnMinSlider(r: Range): (s: Range)
    ensures s.lo <= s.hi && s.hi == r.hi
    ensures r.lo <= r.hi ==> s == r
    ensures r.lo > r.hi ==> s.lo == r.hi
  {
    if r.lo > r.hi then Range(r.hi, r.hi) else r
  }

  /** The maximum slider's input handler: a maximum below the minimum is
      pushed up to it. */
  function OnMaxSlider(r: Range): (s: Range)
    ensures s.lo <= s.hi && s.lo == r.lo
    ensures r.lo <= r.hi ==> s == r
    ensures r.hi < r.lo ==> s.hi == r.lo
  {
    if r.hi < r.lo then Range(r.lo, r.lo) else r
  }

  /** One drag of a slider to a new value, followed by its handler. */
  datatype SliderMove = MoveMin(lo: int) | MoveMax(hi: int)

  function Drag(r: Range, m: SliderMove): Range {
    match m
    case MoveMin(v) => OnMinSlider(Range(v, r.hi))
    case MoveMax(v) => OnMaxSlider(Range(r.lo, v))
  }

  function DragAll(r: Range, ms: seq<SliderMove>): Range
    decreases |ms|
  {
    if |ms| == 0 then r else DragAll(Drag(r, ms[0]), ms[1..])
  }

  /** Whatever the drags, the sliders end ordered; an ordered start stays
      ordered after no drags at all. */
  lemma {:induction false} DragsKeepOrder(r: Range, ms: seq<SliderMove>)
    requires r.lo <= r.hi || |ms| > 0
    ensures DragAll(r, ms).lo <= DragAll(r, ms).hi
    decreases |ms|
  {
    if |ms| > 0 {
      DragsKeepOrder(Drag(r, ms[0]), ms[1..]);
    }
  }

  datatype FilterError = MinAboveMax

  /** `applyFilters`: the typed prices with the range ends as fallbacks,
      rejected when the minimum exceeds the maximum; the checked brands
      lower-cased; no features. */
  function ApplyFilters(minTyped: Option<int>, maxTyped: Option<int>, checkedBrands: seq<string>): (r: Result<Filters, FilterError>)
    ensures r.Ok? <==> ParseOr(minTyped, PriceRangeMin) <= ParseOr(maxTyped, PriceRangeMax)
    ensures r.Ok? ==> r.value.minPrice == ParseOr(minTyped, PriceRangeMin)
    ensures r.Ok? ==> r.value.maxPrice == ParseOr(maxTyped, PriceRangeMax)
    ensures r.Ok? ==> r.value.minPrice <= r.value.maxPrice
    ensures r.Ok? ==> |r.value.brands| == |checkedBrands|
    ensures r.Ok? ==> forall i :: 0 <= i < |checkedBrands| ==> r.value.brands[i] == ToLower(checkedBrands[i])
    ensures r.Ok? ==> r.value.features == []
  {
    var minPrice := ParseOr(minTyped, PriceRangeMin);
    var maxPrice := ParseOr(maxTyped, PriceRangeMax);
    if minPrice > maxPrice then Err(MinAboveMax)
    else Ok(Filters(minPrice, maxPrice, seq(|checkedBrands|, i requires 0 <= i < |checkedBrands| => ToLower(checkedBrands[i])), []))
  }

  /** What the filter button leads to: every listed watch lies within the
      chosen non-zero bounds, and the feature filter is never engaged. */
  lemma AppliedFiltersBoundPrices(minTyped: Option<int>, maxTyped: Option<int>, checkedBrands: seq<string>,
                                  t: Table<Product>, sortValue: string, w: Watch)
    requires ApplyFilters(minTyped, maxTyped, checkedBrands).Ok?
    requires w in LoadLuxuryWatches(t, ApplyFilters(minTyped, maxTyped, checkedBrands).value, sortValue)
    ensures ParseOr(minTyped, PriceRangeMin) != 0 ==> w.product.price >= ParseOr(minTyped, PriceRangeMin) as real
    ensures ParseOr(maxTyped, PriceRangeMax) != 0 ==> w.product.price <= ParseOr(maxTyped, PriceRangeMax) as real
    ensures ClientMatch(ApplyFilters(minTyped, maxTyped, checkedBrands).value, w.product)
        <==> (|checkedBrands| > 10 ==> ToLower(w.product.brand) in ApplyFilters(minTyped, maxTyped, checkedBrands).value.brands)
  {
    LoadedExactly(t, ApplyFilters(minTyped, maxTyped, checkedBrands).value, sortValue, w);
  }

  /** The brands `applyFilters` hands over are lower case, so the two
      brand paths agree on every singly-capitalised brand. */
  lemma AppliedBrandsAgree(minTyped: Option<int>, maxTyped: Option<int>, checkedBrands: seq<string>, brand: string)
    requires ApplyFilters(minTyped, maxTyped, checkedBrands).Ok?
    requires Capitalize(brand) == brand
    ensures brand in Capitalized(ApplyFilters(minTyped, maxTyped, checkedBrands).value.brands)
        <==> ToLower(brand) in ApplyFilters(minTyped, maxTyped, checkedBrands).value.brands
  {
    var brands := ApplyFilters(minTyped, maxTyped, checkedBrands).value.brands;
    forall i | 0 <= i < |brands| ensures IsLower(brands[i]) {
      ToLowerIdempotent(checkedBrands[i]);
    }
    BrandPathsAgree(brands, brand);
  }

  /* ---------------------------------------------------------------------
     Adding to the cart
     --------------------------------------------------------------------- */

  /** Why an add was refused; nothing is written in any of these cases. */
  datatype AddRefusal =
    | NotSignedIn
    | NotListed
    | ProductNotFound
    | OutOfStock
    | StockInCart(stock: int)
    | AtLimit

  /** The query for the user's line of one watch. */
  function OwnLine(uid: string, watchId: string): CartLine -> bool {
    (l: CartLine) => l.userId == uid && l.watchId == watchId
  }

  /** The quantity of the first such line, 0 when there is none. */
  function CartQuantity(cart: Table<CartLine>, uid: string, watchId: string): (q: nat)
    ensures First(cart, OwnLine(uid, watchId)).None? ==> q == 0
    ensures First(cart, OwnLine(uid, watchId)).Some? ==> q == cart.rows[First(cart, OwnLine(uid, watchId)).value].quantity
  {
    match First(cart, OwnLine(uid, watchId))
    case None => 0
    case Some(k) => cart.rows[k].quantity
  }

  /** A passed check: the quantity already in the cart and the stock. */
  datatype StockCheck = StockCheck(cartQuantity: nat, stock: int)

  /** `checkStockAndCartQuantity`. The `hidden` flag is not consulted. */
  function CheckStockAndCartQuantity(watches: Table<Product>, cart: Table<CartLine>, uid: string, watchId: string): (r: Result<StockCheck, AddRefusal>)
    ensures r == Err(ProductNotFound) <==> watchId !in watches.rows
    ensures r == Err(OutOfStock) <==> watchId in watches.rows && watches.rows[watchId].stock <= 0
    ensures r.Err? && r.error.StockInCart? <==>
              watchId in watches.rows && 0 < watches.rows[watchId].stock <= CartQuantity(cart, uid, watchId)
    ensures r.Err? && r.error.StockInCart? ==> r.error.stock == watches.rows[watchId].stock
    ensures r == Err(AtLimit) <==>
              watchId in watches.rows && CartQuantity(cart, uid, watchId) < watches.rows[watchId].stock
              && CartQuantity(cart, uid, watchId) >= Cart.MaxPerProduct
    ensures r.Ok? ==> r.value == StockCheck(CartQuantity(cart, uid, watchId), watches.rows[watchId].stock)
    ensures r.Ok? ==> 0 <= r.value.cartQuantity < r.value.stock && r.value.cartQuantity < Cart.MaxPerProduct
    ensures r.Err? ==> !r.error.NotSignedIn? && !r.error.NotListed?
  {
    if watchId !in watches.rows then Err(ProductNotFound)
    else
      var stock := watches.rows[watchId].stock;
      if stock <= 0 then Err(OutOfStock)
      else
        var cq := CartQuantity(cart, uid, watchId);
        if cq >= stock then Err(StockInCart(stock))
        else if cq >= Cart.MaxPerProduct then Err(AtLimit)
        else Ok(StockCheck(cq, stock))
  }

  /** `allWatches.find(w => w.id === watchId)`. */
  function FindWatch(shown: seq<Watch>, watchId: string): (r: Option<Watch>)
    ensures r.Some? ==> r.value in shown && r.value.id == watchId
    ensures r.None? <==> forall i :: 0 <= i < |shown| ==> shown[i].id != watchId
  {
    if |shown| == 0 then None
    else if shown[0].id == watchId then Some(shown[0])
    else FindWatch(shown[1..], watchId)
  }

  /** `quantity || 1`. */
  function AtLeastOne(q: nat): (r: nat)
    ensures r >= 1 && (q > 0 ==> r == q)
  {
    if q == 0 then 1 else q
  }

  /** The bumped quantity of an existing line:
      `min((quantity || 1) + 1, stock, 10)`. */
  function Bumped(q: nat, stock: int): (r: nat)
    requires stock > 0
    ensures 1 <= r && r <= stock && r <= Cart.MaxPerProduct
    ensures r <= AtLeastOne(q) + 1
  {
    Min(Min(AtLeastOne(q) + 1, stock), Cart.MaxPerProduct)
  }

  /** The fresh line the page adds for a watch not yet in the cart. */
  function NewLine(key: string, uid: string, w: Watch, now: int): (l: CartLine)
    ensures l.id == key && l.userId == uid && l.watchId == w.id && l.quantity == 1
    ensures l.name == w.product.name && l.brand == w.product.brand && l.price == w.product.price
  {
    CartLine(key, uid, w.id, w.product.name, w.product.brand, w.product.price, 1, now, false, false, None)
  }

  /** `addToCart` on the catalogue page: signed in, the watch listed, the
      check passed; then the user's line of the watch is bumped, or a new
      line with quantity 1 is added under the fresh key `newKey`. */
  function AddToCart(watches: Table<Product>, cart: Table<CartLine>, user: Option<User>, shown: seq<Watch>,
                     watchId: string, now: int, newKey: string): (r: Result<Table<CartLine>, AddRefusal>)
    requires newKey !in cart.rows
    ensures user.None? ==> r == Err(NotSignedIn)
    ensures r.Ok? <==> user.Some? && FindWatch(shown, watchId).Some?
                       && CheckStockAndCartQuantity(watches, cart, user.value.uid, watchId).Ok?
    ensures r.Ok? && First(cart, OwnLine(user.value.uid, watchId)).Some? ==>
              var k := First(cart, OwnLine(user.value.uid, watchId)).value;
              r.value == Put(cart, k, cart.rows[k].(quantity := Bumped(cart.rows[k].quantity, watches.rows[watchId].stock)))
    ensures r.Ok? && First(cart, OwnLine(user.value.uid, watchId)).None? ==>
              r.value == Put(cart, newKey, NewLine(newKey, user.value.uid, FindWatch(shown, watchId).value, now))
  {
    if user.None? then Err(NotSignedIn)
    else
      var uid := user.value.uid;
      match FindWatch(shown, watchId)
      case None => Err(NotListed)
      case Some(w) =>
        match CheckStockAndCartQuantity(watches, cart, uid, watchId)
        case Err(e) => Err(e)
        case Ok(check) =>
          match First(cart, OwnLine(uid, watchId))
          case Some(k) =>
            Ok(Put(cart, k, cart.rows[k].(quantity := Bumped(cart.rows[k].quantity, check.stock))))
          case None =>
            Ok(Put(cart, newKey, NewLine(newKey, uid, w, now)))
  }

  /** Rewriting a row to a value the query judges the same way leaves the
      query's hits unchanged. */
  lemma {:induction false} SelectPutPreserved<T>(keys: seq<string>, rows: map<string, T>, p: T -> bool, k: string, v: T)
    requires k in rows && p(v) == p(rows[k])
    ensures Select(keys, rows[k := v], p) == Select(keys, rows, p)
  {
    if |keys| > 0 {
      SelectPutPreserved(keys[1..], rows, p, k, v);
    }
  }

  /** A successful add raises the quantity the next check sees: by one
      for a new line or a positive one, and never past the stock or the
      per-product limit. */
  lemma AddRaisesCartQuantity(watches: Table<Product>, cart: Table<CartLine>, user: Option<User>, shown: seq<Watch>,
                              watchId: string, now: int, newKey: string)
    requires newKey !in cart.rows
    requires AddToCart(watches, cart, user, shown, watchId, now, newKey).Ok?
    ensures var before := CartQuantity(cart, user.value.uid, watchId);
            var after := CartQuantity(AddToCart(watches, cart, user, shown, watchId, now, newKey).value, user.value.uid, watchId);
            && before < after
            && after <= watches.rows[watchId].stock
            && after <= Cart.MaxPerProduct
            && (before > 0 || First(cart, OwnLine(user.value.uid, watchId)).None? ==> after == before + 1)
  {
    var uid := user.value.uid;
    var p := OwnLine(uid, watchId);
    var r := AddToCart(watches, cart, user, shown, watchId, now, newKey).value;
    var stock := watches.rows[watchId].stock;
    match First(cart, p)
    case Some(k) =>
      var line := cart.rows[k].(quantity := Bumped(cart.rows[k].quantity, stock));
      assert r.rows == cart.rows[k := line] && r.scan == cart.scan;
      SelectPutPreserved(cart.scan, cart.rows, p, k, line);
      assert First(r, p) == Some(k);
    case None =>
      var line := NewLine(newKey, uid, FindWatch(shown, watchId).value, now);
      assert p(line);
      FirstOfPutFresh(cart, p, newKey, line);
  }

  /* ---------------------------------------------------------------------
     The cart badge
     --------------------------------------------------------------------- */

  /** Σ `quantity || 1`: a line of quantity 0 shows as one unit. */
  function BadgeCount(lines: seq<CartLine>): nat {
    if |lines| == 0 then 0 else AtLeastOne(lines[0].quantity) + BadgeCount(lines[1..])
  }

  function QuantitySum(lines: seq<CartLine>): nat {
    if |lines| == 0 then 0 else lines[0].quantity + QuantitySum(lines[1..])
  }

  /** The number of lines whose quantity is 0. */
  function EmptyLines(lines: seq<CartLine>): nat {
    if |lines| == 0 then 0 else (if lines[0].quantity == 0 then 1 else 0) + EmptyLines(lines[1..])
  }

  /** The badge counts the quantities plus one unit per empty line; so at
      least one unit per line, never less than the cart page's available
      quantity, and exactly the quantities when none is zero. */
  lemma {:induction false} BadgeCountBounds(lines: seq<CartLine>)
    ensures BadgeCount(lines) == QuantitySum(lines) + EmptyLines(lines)
    ensures |lines| <= BadgeCount(lines)
    ensures QuantitySum(lines) <= BadgeCount(lines)
    ensures Cart.AvailableQuantity(lines) <= BadgeCount(lines)
    ensures (forall i :: 0 <= i < |lines| ==> lines[i].quantity > 0) ==> BadgeCount(lines) == QuantitySum(lines)
  {
    if |lines| > 0 {
      BadgeCountBounds(lines[1..]);
    }
  }

  /** The user's cart lines, in the store's enumeration order. */
  function UserLines(cart: Table<CartLine>, uid: string): (r: seq<CartLine>)
    ensures forall i :: 0 <= i < |r| ==> r[i].userId == uid && r[i] in cart.rows.Values
  {
    var keys := Select(cart.scan, cart.rows, (l: CartLine) => l.userId == uid);
    seq(|keys|, i requires 0 <= i < |keys| => cart.rows[keys[i]])
  }

  /** `updateCartCount`: nothing without a user, otherwise the badge of
      the user's lines. */
  function UpdateCartCount(cart: Table<CartLine>, user: Option<User>): (r: Option<nat>)
    ensures r.Some? <==> user.Some?
    ensures r.Some? ==> r.value == QuantitySum(UserLines(cart, user.value.uid)) + EmptyLines(UserLines(cart, user.value.uid))
    ensures r.Some? ==> |UserLines(cart, user.value.uid)| <= r.value
    ensures r.Some? && (forall i :: 0 <= i < |UserLines(cart, user.value.uid)| ==> UserLines(cart, user.value.uid)[i].quantity > 0)
            ==> r.value == QuantitySum(UserLines(cart, user.value.uid))
  {
    match user
    case None => None
    case Some(u) =>
      BadgeCountBounds(UserLines(cart, u.uid));
      Some(BadgeCount(UserLines(cart, u.uid)))
  }
}
