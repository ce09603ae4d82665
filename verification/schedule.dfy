/** The repair pickup form: the service order it files and the price it
    quotes, a list price plus an express surcharge, or, for a service
    without a list price, the "as per the issue" text. */
module Schedule {
  import opened Common
  import opened Records
  import Workflow
  import Admin

  const ExpressSurcharge: nat := 100

  /** The list price of a service; every other value, 'Nothing' among
      them, has none (0). */
  function BasePrice(service: string): (n: nat)
    ensures n == 200 <==> service == "battery"
    ensures n == 500 <==> service == "full"
    ensures n == 150 <==> service == "glass"
    ensures n == 0 <==> service != "battery" && service != "full" && service != "glass"
  {
    match service
    case "battery" => 200
    case "full" => 500
    case "glass" => 150
    case _ => 0
  }

  /** The price the form stores: the list price plus the surcharge when
      express service is chosen, or the assessed-price text when the
      service has no list price. */
  function PickupPrice(service: string, express: bool): (p: Price)
    ensures p.Assessed? <==> BasePrice(service) == 0
    ensures p.Assessed? ==> p.express == express
    ensures p.Fixed? ==> p.amount == BasePrice(service) + (if express then ExpressSurcharge else 0)
    ensures p.Fixed? ==> p.amount > 0
  {
    var base := BasePrice(service);
    if base == 0 then Assessed(express)
    else Fixed(base + (if express then ExpressSurcharge else 0))
  }

  /** The text stored for an assessed price. With express service the
      surcharge is appended to the text, digits and all, rather than
      added to a number. */
  function AssessedText(express: bool): (s: string)
    ensures StartsWith(s, "(As per the issue) ")
    ensures express <==> |s| > |"(As per the issue) "|
  {
    "(As per the issue) " + (if express then "+ express service-- ₹" + NatToString(ExpressSurcharge) else "")
  }

  /** The two texts of an assessed price, in full. */
  lemma AssessedTexts()
    ensures AssessedText(false) == "(As per the issue) "
    ensures AssessedText(true) == "(As per the issue) + express service-- ₹100"
  {
    SurchargeDigits();
    var tail := "+ express service-- ₹" + NatToString(ExpressSurcharge);
    assert tail == "+ express service-- ₹100";
  }

  lemma SurchargeDigits()
    ensures NatToString(ExpressSurcharge) == "100"
  {
    assert NatToString(1) == "1";
    assert NatToString(10) == "10";
  }

  /** Express service costs exactly the surcharge more for every listed
      service, and nothing changes in kind for the others. */
  lemma ExpressAddsSurcharge(service: string)
    ensures PickupPrice(service, true).Fixed? == PickupPrice(service, false).Fixed?
    ensures PickupPrice(service, false).Fixed? ==>
              PickupPrice(service, true).amount == PickupPrice(service, false).amount + ExpressSurcharge
  {
  }

  /** A battery change with express service is quoted at 300. */
  lemma BatteryExpressQuote()
    ensures PickupPrice("battery", true) == Fixed(300)
  {
  }

  /** The values of the pickup form the order record keeps. The contact
      details, the watch's brand and issue, the date, the time slot and
      the terms box are copied into the record unexamined. */
  datatype PickupForm = PickupForm(customerName: string, service: string, express: bool)

  datatype ScheduleError = NotAuthenticated

  /** The order record of a pickup: id "PK" followed by the submission time
      in milliseconds, type 'pickup', status 'order_placed'. */
  function PickupOrder(user: User, form: PickupForm, now: nat): (o: Order)
    ensures o.Service? && o.kind == PickupKind && o.TypeName() == "pickup"
    ensures o.id == Some("PK" + NatToString(now))
    ensures o.status == "order_placed" && o.timestamp == now && o.updatedAt.None?
    ensures o.userEmail == user.email && o.customerName == form.customerName
    ensures o.service == form.service && o.express == form.express
    ensures o.price == Some(PickupPrice(form.service, form.express))
  {
    Service(PickupKind, Some("PK" + NatToString(now)), user.email, form.customerName, "order_placed",
            now, None, form.service, form.express, Some(PickupPrice(form.service, form.express)))
  }

  /** The form's submit handler: without a signed-in user it fails before
      anything is written; otherwise the record is added under the store's
      fresh key. */
  function SchedulePickup(orders: Table<Order>, user: Option<User>, form: PickupForm, now: nat, key: string): (r: Result<Table<Order>, ScheduleError>)
    requires key !in orders.rows
    ensures r.Err? <==> user.None?
    ensures r.Ok? ==> r.value.rows == orders.rows[key := PickupOrder(user.value, form, now)]
    ensures r.Ok? ==> forall k :: k in orders.rows ==> k in r.value.rows && r.value.rows[k] == orders.rows[k]
    ensures WellFormed(orders) && r.Ok? ==> WellFormed(r.value)
  {
    match user
    case None => Err(NotAuthenticated)
    case Some(u) => Ok(Put(orders, key, PickupOrder(u, form, now)))
  }

  /** A new pickup whose id no earlier order carries is found by the
      dashboard's service-order update under its "PK" id, and one click
      schedules the pickup. */
  lemma PickupAdvancesToScheduled(orders: Table<Order>, user: User, form: PickupForm, now: nat, key: string, later: int)
    requires key !in orders.rows && WellFormed(orders)
    requires forall k :: k in orders.rows ==> !HasIdField(orders.rows[k], "PK" + NatToString(now))
    ensures var after := SchedulePickup(orders, Some(user), form, now, key).value;
            && Admin.UpdateServiceOrderStatus(after, "PK" + NatToString(now), later).Ok?
            && Admin.UpdateServiceOrderStatus(after, "PK" + NatToString(now), later).value.rows[key].status == "pickup_scheduled"
  {
    var o := PickupOrder(user, form, now);
    FirstOfPutFresh(orders, ByIdField("PK" + NatToString(now)), key, o);
    Workflow.NextStatusOfListed(0, "pickup");
  }

  /** How the admin dashboard sees a new pickup: shown under its "PK" id,
      at the first step of the service workflow, whose next step is the
      scheduled pickup; counted in sales at its list price, or at 0 when
      the price is assessed. */
  lemma PickupOnDashboard(user: User, form: PickupForm, now: nat, key: string)
    ensures Admin.DisplayId(key, PickupOrder(user, form, now)) == "PK" + NatToString(now)
    ensures Admin.EffectiveStatus(PickupOrder(user, form, now)) == Workflow.StatusConfig("pickup")[0].key
    ensures Workflow.NextStatus(Admin.EffectiveStatus(PickupOrder(user, form, now)), "pickup") == "pickup_scheduled"
    ensures Admin.OrderTotal(PickupOrder(user, form, now))
         == (if BasePrice(form.service) == 0 then 0.0 else PickupPrice(form.service, form.express).amount as real)
  {
    Workflow.NextStatusOfListed(0, "pickup");
  }
}
