/** The order-tracking page: looking an order up by the number a customer
    types, the signed-in user's merged order list and its tabs, the
    status timelines drawn on each order card, and the status badge. */
module Track {
  import opened Common
  import opened Records
  import Workflow
  import Sorting
  import Schedule

  /* ---------------------------------------------------------------------
     Looking up one order
     --------------------------------------------------------------------- */

  /** Which query found an order: the purchase order-number query
      ('watch') or the service `id` query ('repair'). */
  datatype OrderSource = WatchSource | RepairSource

  datatype Tracked = Tracked(key: string, order: Order, source: OrderSource)

  datatype TrackError = EmptyInput | NotFound

  /** `trackOrder`: the trimmed input, rejected when empty; then the first
      purchase with that order number; failing that, the first service
      order with that `id`. */
  function TrackOrder(orders: Table<Order>, input: string): (r: Result<Tracked, TrackError>)
    ensures r == Err(EmptyInput) <==> IsBlank(input)
    ensures r.Ok? ==> r.value.key in orders.rows && r.value.order == orders.rows[r.value.key]
    ensures r.Ok? && r.value.source == WatchSource ==>
              HasOrderNumber(r.value.order, Trim(input))
              && First(orders, ByOrderNumber(Trim(input))) == Some(r.value.key)
    ensures r.Ok? && r.value.source == RepairSource ==> First(orders, ByIdField(Trim(input))) == Some(r.value.key)
    ensures r.Ok? && r.value.source == RepairSource ==>
              HasIdField(r.value.order, Trim(input))
              && forall k :: k in orders.scan && k in orders.rows ==> !HasOrderNumber(orders.rows[k], Trim(input))
    ensures r == Err(NotFound) ==>
              forall k :: k in orders.scan && k in orders.rows ==>
                !HasOrderNumber(orders.rows[k], Trim(input)) && !HasIdField(orders.rows[k], Trim(input))
  {
    var n := Trim(input);
    TrimEmptyIffBlank(input);
    if n == "" then Err(EmptyInput)
    else match First(orders, ByOrderNumber(n))
      case Some(k) => Ok(Tracked(k, orders.rows[k], WatchSource))
      case None =>
        match First(orders, ByIdField(n))
        case Some(k) => Ok(Tracked(k, orders.rows[k], RepairSource))
        case None => Err(NotFound)
  }

  /** White space around the typed number makes no difference. */
  lemma TrackOrderIgnoresPadding(orders: Table<Order>, input: string)
    ensures TrackOrder(orders, input) == TrackOrder(orders, Trim(input))
  {
    TrimUnpadded(Trim(input));
    TrimEmptyIffBlank(input);
    TrimEmptyIffBlank(Trim(input));
  }

  /** An unpadded input that no purchase carries as its order number is
      looked up by the `id` field. */
  lemma TrackOrderById(orders: Table<Order>, n: string)
    requires |n| > 0 && Trim(n) == n
    requires First(orders, ByOrderNumber(n)).None? && First(orders, ByIdField(n)).Some?
    ensures TrackOrder(orders, n) == Ok(Tracked(First(orders, ByIdField(n)).value, orders.rows[First(orders, ByIdField(n)).value], RepairSource))
  {
    TrimEmptyIffBlank(n);
  }

  /** Every purchase found is found again by the order number its card
      shows. */
  lemma TrackOrderAgain(orders: Table<Order>, input: string)
    requires TrackOrder(orders, input).Ok?
    ensures var found := TrackOrder(orders, input).value;
            found.source == WatchSource ==>
              TrackOrder(orders, found.order.orderNumber) == TrackOrder(orders, input)
  {
    var found := TrackOrder(orders, input).value;
    if found.source == WatchSource {
      assert found.order.orderNumber == Trim(input);
      TrackOrderIgnoresPadding(orders, input);
    }
  }

  /** The digits of a timestamp are not white space. */
  lemma PickupIdUnpadded(millis: nat)
    ensures Trim("PK" + NatToString(millis)) == "PK" + NatToString(millis)
  {
    var s := "PK" + NatToString(millis);
    assert IsDigit(s[|s| - 1]);
    TrimUnpadded(s);
  }

  /** A service order added under a fresh key with an unused, unpadded
      `id` is found by that id as a repair order. */
  lemma TrackFindsNewServiceOrder(orders: Table<Order>, key: string, o: Order, id: string)
    requires key !in orders.rows && WellFormed(orders)
    requires o.Service? && o.id == Some(id) && |id| > 0 && Trim(id) == id
    requires forall k :: k in orders.rows ==> !HasIdField(orders.rows[k], id) && !HasOrderNumber(orders.rows[k], id)
    ensures TrackOrder(Put(orders, key, o), id) == Ok(Tracked(key, o, RepairSource))
  {
    var after := Put(orders, key, o);
    assert WellFormed(after);
    assert First(after, ByOrderNumber(id)).None?;
    assert ByIdField(id)(o);
    FirstOfPutFresh(orders, ByIdField(id), key, o);
    TrackOrderById(after, id);
  }

  /** A newly scheduled pickup is found by its "PK" id as a repair order,
      as long as its id is not already taken. */
  lemma TrackFindsNewPickup(orders: Table<Order>, user: User, form: Schedule.PickupForm, now: nat, key: string)
    requires key !in orders.rows && WellFormed(orders)
    requires forall k :: k in orders.rows ==>
               !HasIdField(orders.rows[k], "PK" + NatToString(now))
               && !HasOrderNumber(orders.rows[k], "PK" + NatToString(now))
    ensures TrackOrder(Schedule.SchedulePickup(orders, Some(user), form, now, key).value, "PK" + NatToString(now))
         == Ok(Tracked(key, Schedule.PickupOrder(user, form, now), RepairSource))
  {
    PickupIdUnpadded(now);
    TrackFindsNewServiceOrder(orders, key, Schedule.PickupOrder(user, form, now), "PK" + NatToString(now));
  }

  /* ---------------------------------------------------------------------
     The user's orders
     --------------------------------------------------------------------- */

  function TimestampKey(t: Tracked): int { t.order.timestamp }

  /** Service orders filed under the user's email, and purchases placed
      with it. */
  function RepairOf(email: string): Order -> bool {
    (o: Order) => o.Service? && o.userEmail == email
  }

  function PurchaseOf(email: string): Order -> bool {
    (o: Order) => o.Purchase? && o.customerEmail == email
  }

  function Tag(keys: seq<string>, rows: map<string, Order>, source: OrderSource): (r: seq<Tracked>)
    requires forall i :: 0 <= i < |keys| ==> keys[i] in rows
    ensures |r| == |keys|
    ensures forall i :: 0 <= i < |keys| ==> r[i] == Tracked(keys[i], rows[keys[i]], source)
  {
    seq(|keys|, i requires 0 <= i < |keys| => Tracked(keys[i], rows[keys[i]], source))
  }

  /** One of the two queries, newest first (`orderBy('timestamp', 'desc')`). */
  function Fetch(orders: Table<Order>, p: Order -> bool, source: OrderSource): seq<Tracked> {
    Sorting.SortDesc(Tag(Select(orders.scan, orders.rows, p), orders.rows, source), TimestampKey)
  }

  /** `loadUserOrders`: the user's service orders followed by their
      purchases, the whole then sorted newest first (stably). Nothing is
      loaded without a user. */
  function LoadUserOrders(orders: Table<Order>, user: Option<User>): (r: Option<seq<Tracked>>)
    ensures r.Some? <==> user.Some?
    ensures r.Some? ==> Sorting.SortedDesc(r.value, TimestampKey)
    ensures r.Some? ==> |r.value| == |Fetch(orders, RepairOf(user.value.email), RepairSource)|
                                     + |Fetch(orders, PurchaseOf(user.value.email), WatchSource)|
  {
    match user
    case None => None
    case Some(u) =>
      Some(Sorting.SortDesc(Fetch(orders, RepairOf(u.email), RepairSource)
                            + Fetch(orders, PurchaseOf(u.email), WatchSource), TimestampKey))
  }

  /** The user's order list holds exactly the enumerated service orders
      filed under their email, tagged 'repair', and the enumerated
      purchases placed with it, tagged 'watch'. */
  lemma UserOrdersExactly(orders: Table<Order>, user: User, t: Tracked)
    ensures t in LoadUserOrders(orders, Some(user)).value <==>
              && t.key in orders.scan && t.key in orders.rows && t.order == orders.rows[t.key]
              && (|| (t.source == RepairSource && t.order.Service? && t.order.userEmail == user.email)
                  || (t.source == WatchSource && t.order.Purchase? && t.order.customerEmail == user.email))
  {
    var rs := Fetch(orders, RepairOf(user.email), RepairSource);
    var ws := Fetch(orders, PurchaseOf(user.email), WatchSource);
    var all := LoadUserOrders(orders, Some(user)).value;
    assert t in all <==> t in rs + ws by {
      assert t in all <==> t in multiset(all);
    }
    InFetch(orders, RepairOf(user.email), RepairSource, t);
    InFetch(orders, PurchaseOf(user.email), WatchSource, t);
  }

  lemma InFetch(orders: Table<Order>, p: Order -> bool, source: OrderSource, t: Tracked)
    ensures t in Fetch(orders, p, source) <==>
              t.key in orders.scan && t.key in orders.rows && t.order == orders.rows[t.key]
              && t.source == source && p(t.order)
  {
    var keys := Select(orders.scan, orders.rows, p);
    var tagged := Tag(keys, orders.rows, source);
    assert t in Fetch(orders, p, source) <==> t in tagged by {
      assert t in Fetch(orders, p, source) <==> t in multiset(Fetch(orders, p, source));
    }
    if t in tagged {
      var i :| 0 <= i < |tagged| && tagged[i] == t;
    }
    if t.key in orders.scan && t.key in orders.rows && t.order == orders.rows[t.key] && t.source == source && p(t.order) {
      var i :| 0 <= i < |keys| && keys[i] == t.key;
      assert tagged[i] == t;
    }
  }

  /** Orders placed at the same instant keep the merge's order: the
      service orders before the purchases. */
  lemma SameInstantRepairsFirst(orders: Table<Order>, user: User, k: int)
    ensures Sorting.WithKey(LoadUserOrders(orders, Some(user)).value, TimestampKey, k)
         == Sorting.WithKey(Fetch(orders, RepairOf(user.email), RepairSource), TimestampKey, k)
            + Sorting.WithKey(Fetch(orders, PurchaseOf(user.email), WatchSource), TimestampKey, k)
  {
    var rs := Fetch(orders, RepairOf(user.email), RepairSource);
    var ws := Fetch(orders, PurchaseOf(user.email), WatchSource);
    Sorting.SortDescIsStable(rs + ws, TimestampKey, k);
    Sorting.WithKeyAppend(rs, ws, TimestampKey, k);
  }

  /* ---------------------------------------------------------------------
     Tabs
     --------------------------------------------------------------------- */

  /** The tab an order is shown under: 'pickup' and 'store' test the
      order's `type`, 'watch' tests where it was found; any other tab
      shows every order. */
  predicate OnTab(tab: string, t: Tracked) {
    match tab
    case "pickup" => t.order.TypeName() == "pickup"
    case "store" => t.order.TypeName() == "store"
    case "watch" => t.source == WatchSource
    case _ => true
  }

  function TabFilter(tab: string): Tracked -> bool {
    t => OnTab(tab, t)
  }

  /** `displayOrders(filter)`. */
  function DisplayOrders(all: seq<Tracked>, tab: string): (r: seq<Tracked>)
    ensures IsSubsequence(r, all)
    ensures tab != "pickup" && tab != "store" && tab != "watch" ==> r == all
  {
    FilterIsSubsequence(all, TabFilter(tab));
    IsSubsequenceOfSelf(all);
    if tab == "pickup" || tab == "store" || tab == "watch" then Filter(all, TabFilter(tab)) else all
  }

  /** A tab shows exactly the orders of its kind. */
  lemma DisplayOrdersExactly(all: seq<Tracked>, tab: string, t: Tracked)
    ensures t in DisplayOrders(all, tab) <==> t in all && OnTab(tab, t)
  {
    var r := DisplayOrders(all, tab);
    if tab == "pickup" || tab == "store" || tab == "watch" {
      if t in r {
        var i :| 0 <= i < |r| && r[i] == t;
        assert TabFilter(tab)(r[i]);
      }
      if t in all && OnTab(tab, t) {
        var i :| 0 <= i < |all| && all[i] == t;
        assert TabFilter(tab)(all[i]);
      }
    }
  }

  /** Of the user's orders, the 'watch' tab shows the purchases and the
      'pickup' tab the pickups: no order is on both. */
  lemma WatchAndPickupTabsDisjoint(orders: Table<Order>, user: User, t: Tracked)
    requires t in LoadUserOrders(orders, Some(user)).value
    ensures !(OnTab("watch", t) && OnTab("pickup", t))
    ensures OnTab("watch", t) <==> t.order.Purchase?
  {
    UserOrdersExactly(orders, user, t);
  }

  /* ---------------------------------------------------------------------
     Timelines
     --------------------------------------------------------------------- */

  /** How one step of a timeline is drawn. */
  datatype StepMark = StepMark(completed: bool, active: bool)

  const WatchTimelineKeys: seq<string> := ["pending", "confirmed", "processing", "shipped", "delivered"]

  /** The repair timeline's keys as the page lists them: the first is
      'order_place', which no order ever carries. */
  const RepairTimelineKeysAsWritten: seq<string> := ["order_place", "pickup_scheduled", "in_service", "completed", "delivered"]

  /** The repair timeline's keys with the first one spelled as service
      orders store it. */
  const RepairTimelineKeys: seq<string> := ["order_placed", "pickup_scheduled", "in_service", "completed", "delivered"]

  /** Step `i` against the position `index` of the order's status. */
  function Mark(index: Option<nat>, i: nat): StepMark {
    StepMark(index.Some? && i <= index.value, index == Some(i))
  }

  /** The marks of a timeline for an order in `status`: the completed
      steps form a prefix that ends at the one active step, whose key is
      the status; a status not in the list marks nothing. */
  function Timeline(keys: seq<string>, status: string): (marks: seq<StepMark>)
    ensures |marks| == |keys|
    ensures forall i, j :: 0 <= i <= j < |marks| && marks[j].completed ==> marks[i].completed
    ensures forall i :: 0 <= i < |marks| && marks[i].active ==> keys[i] == status && marks[i].completed
    ensures forall i :: 0 <= i < |marks| - 1 && marks[i].active ==> !marks[i + 1].completed
    ensures forall i, j :: 0 <= i < j < |marks| ==> !(marks[i].active && marks[j].active)
    ensures status in keys <==> exists i :: 0 <= i < |marks| && marks[i].active
    ensures status !in keys ==> forall i :: 0 <= i < |marks| ==> marks[i] == StepMark(false, false)
  {
    var index := Workflow.IndexOf(keys, status);
    var marks := seq(|keys|, i requires 0 <= i < |keys| => Mark(index, i));
    assert status in keys ==> marks[index.value].active;
    marks
  }

  /** A status at its first position `i` completes steps 0 to `i` and
      makes step `i` the active one. */
  lemma TimelineAtPosition(keys: seq<string>, i: nat, j: nat)
    requires i < |keys| && j < |keys| && keys[i] !in keys[..i]
    ensures Timeline(keys, keys[i])[j].completed <==> j <= i
    ensures Timeline(keys, keys[i])[j].active <==> j == i
  {
  }

  /** `createWatchOrderTimeline`. */
  function WatchTimeline(status: string): seq<StepMark> {
    Timeline(WatchTimelineKeys, status)
  }

  /** `createRepairOrderTimeline` as written. */
  function RepairTimelineAsWritten(status: string): seq<StepMark> {
    Timeline(RepairTimelineKeysAsWritten, status)
  }

  /** `createRepairOrderTimeline` with the first key corrected. */
  function RepairTimeline(status: string): seq<StepMark> {
    Timeline(RepairTimelineKeys, status)
  }

  /** The number of completed steps. */
  function Completed(marks: seq<StepMark>): nat {
    if |marks| == 0 then 0 else (if marks[0].completed then 1 else 0) + Completed(marks[1..])
  }

  lemma {:induction false} CompletedPrefix(marks: seq<StepMark>, n: nat)
    requires n <= |marks|
    requires forall i :: 0 <= i < |marks| ==> (marks[i].completed <==> i < n)
    ensures Completed(marks) == n
  {
    if |marks| > 0 {
      var rest := marks[1..];
      if n == 0 {
        CompletedPrefix(rest, 0);
      } else {
        CompletedPrefix(rest, n - 1);
      }
    }
  }

  /** The page's timelines draw the admin dashboard's workflows: the watch
      timeline the purchase list, the corrected repair timeline the
      service list. */
  lemma TimelinesFollowWorkflow()
    ensures WatchTimelineKeys == Workflow.Keys(Workflow.StatusConfig("purchase"))
    ensures RepairTimelineKeys == Workflow.Keys(Workflow.StatusConfig("pickup"))
    ensures RepairTimelineKeys == Workflow.Keys(Workflow.StatusConfig("store"))
  {
  }

  /** A status at its first position `i` completes `i + 1` steps. */
  lemma CompletedCountsPosition(keys: seq<string>, i: nat)
    requires i < |keys| && keys[i] !in keys[..i]
    ensures Completed(Timeline(keys, keys[i])) == i + 1
  {
    var marks := Timeline(keys, keys[i]);
    forall j | 0 <= j < |marks| ensures marks[j].completed <==> j < i + 1 {
      TimelineAtPosition(keys, i, j);
    }
    CompletedPrefix(marks, i + 1);
  }

  lemma FirstPosition(keys: seq<string>, i: nat)
    requires Workflow.Distinct(keys) && i < |keys|
    ensures keys[i] !in keys[..i]
  {
    var pre := keys[..i];
    forall j | 0 <= j < i ensures pre[j] != keys[i] {
      assert pre[j] == keys[j];
    }
  }

  /** Each admin click that does not wrap around completes exactly one
      more step of the order's timeline. */
  lemma ClickCompletesOneStep(orderType: string, i: nat)
    requires i < 4
    ensures var keys := Workflow.Keys(Workflow.StatusConfig(orderType));
            Completed(Timeline(keys, Workflow.NextStatus(keys[i], orderType)))
              == Completed(Timeline(keys, keys[i])) + 1
  {
    Workflow.NextStatusAdvances(i, orderType);
    Workflow.StatusKeysDistinct(orderType);
    NextStepCompletesOneMore(Workflow.Keys(Workflow.StatusConfig(orderType)), i);
  }

  lemma NextStepCompletesOneMore(keys: seq<string>, i: nat)
    requires Workflow.Distinct(keys) && i + 1 < |keys|
    ensures Completed(Timeline(keys, keys[i + 1])) == Completed(Timeline(keys, keys[i])) + 1
  {
    FirstPosition(keys, i);
    FirstPosition(keys, i + 1);
    CompletedCountsPosition(keys, i);
    CompletedCountsPosition(keys, i + 1);
  }

  /** As written, a service order just placed (status 'order_placed')
      shows an empty repair timeline. */
  lemma NewServiceOrderShowsNoProgress(user: User, form: Schedule.PickupForm, now: nat)
    ensures forall i :: 0 <= i < 5 ==>
              RepairTimelineAsWritten(Schedule.PickupOrder(user, form, now).status)[i] == StepMark(false, false)
  {
    assert "order_placed" !in RepairTimelineKeysAsWritten;
  }

  /** As written, the first repair step is never the active one: its key
      is not a status the service workflow or the pickup form produces. */
  lemma AsWrittenFirstStepNeverActive(orderType: string, current: string, user: User, form: Schedule.PickupForm, now: nat)
    ensures !RepairTimelineAsWritten(Workflow.NextStatus(current, orderType))[0].active
    ensures !RepairTimelineAsWritten(Schedule.PickupOrder(user, form, now).status)[0].active
  {
  }

  /** Corrected, a new service order shows its first step completed and
      active, and nothing beyond it. */
  lemma NewServiceOrderShowsFirstStep(user: User, form: Schedule.PickupForm, now: nat)
    ensures RepairTimeline(Schedule.PickupOrder(user, form, now).status)[0] == StepMark(true, true)
    ensures forall i :: 1 <= i < 5 ==> RepairTimeline(Schedule.PickupOrder(user, form, now).status)[i] == StepMark(false, false)
  {
    assert RepairTimelineKeys[0] == "order_placed" && "order_placed" !in RepairTimelineKeys[..0];
    forall i | 0 <= i < 5 ensures RepairTimeline("order_placed")[i] == StepMark(i == 0, i == 0) {
      TimelineAtPosition(RepairTimelineKeys, 0, i);
    }
  }

  /* ---------------------------------------------------------------------
     Status badges
     --------------------------------------------------------------------- */

  /** The statuses the badge maps know. */
  const KnownStatuses: set<string> := {
    "pending", "confirmed", "processing", "shipped", "delivered",
    "order_placed", "pickup_scheduled", "in_service", "completed"
  }

  /** `getStatusClass`: every badge class is a "status-" class; a new
      service order and an unknown status look pending. */
  function StatusClass(status: string): (c: string)
    ensures StartsWith(c, "status-")
    ensures c == "status-pending" <==> status == "pending" || status == "order_placed" || status !in KnownStatuses
  {
    match status
    case "pending" => "status-pending"
    case "confirmed" => "status-confirmed"
    case "processing" => "status-processing"
    case "shipped" => "status-shipped"
    case "delivered" => "status-delivered"
    case "order_placed" => "status-pending"
    case "pickup_scheduled" => "status-confirmed"
    case "in_service" => "status-processing"
    case "completed" => "status-completed"
    case _ => "status-pending"
  }

  /** `getStatusText`: a capitalised label; only 'pending' and an unknown
      status read 'Pending'. */
  function StatusText(status: string): (t: string)
    ensures |t| > 0 && 'A' <= t[0] <= 'Z'
    ensures t == "Pending" <==> status == "pending" || status !in KnownStatuses
  {
    match status
    case "pending" => "Pending"
    case "confirmed" => "Confirmed"
    case "processing" => "Processing"
    case "shipped" => "Shipped"
    case "delivered" => "Delivered"
    case "order_placed" => "Order Placed"
    case "pickup_scheduled" => "Pickup Scheduled"
    case "in_service" => "In Service"
    case "completed" => "Completed"
    case _ => "Pending"
  }

  /** Every status the workflows produce has its own badge. */
  lemma WorkflowStatusesKnown(orderType: string, current: string)
    ensures Workflow.NextStatus(current, orderType) in KnownStatuses
  {
  }

  /** The text tells the known statuses apart; only an unknown status
      reads like 'pending'. */
  lemma StatusTextDistinguishes(s: string, t: string)
    requires s in KnownStatuses && t in KnownStatuses && s != t
    ensures StatusText(s) != StatusText(t)
  {
  }

  /** The badge class groups the two workflows' steps by stage: the
      first steps look pending, the second confirmed, the third
      processing. */
  lemma StatusClassByStage(i: nat)
    requires i < 3
    ensures StatusClass(WatchTimelineKeys[i]) == StatusClass(RepairTimelineKeys[i])
  {
  }
}
