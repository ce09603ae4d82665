/** The order status workflow of the admin dashboard: two five-step cyclic
    lists, one for watch purchases and one for repair/store services, and
    the successor function an admin's "update status" click applies. */
module Workflow {
  import opened Common

  /** One entry of a status list: the stored key and its display caption. */
  datatype StatusStep = StatusStep(key: string, caption: string)

  const WatchOrderStatuses: seq<StatusStep> := [
    StatusStep("pending", "Order Placed"),
    StatusStep("confirmed", "Confirmed"),
    StatusStep("processing", "Processing"),
    StatusStep("shipped", "Shipped"),
    StatusStep("delivered", "Delivered")
  ]

  const ServiceOrderStatuses: seq<StatusStep> := [
    StatusStep("order_placed", "Order Placed"),
    StatusStep("pickup_scheduled", "Pickup/Visit Scheduled"),
    StatusStep("in_service", "In Service"),
    StatusStep("completed", "Completed"),
    StatusStep("delivered", "Delivered")
  ]

  /** The list that governs an order of the given `type`: only 'purchase'
      selects the watch list. */
  function StatusConfig(orderType: string): (c: seq<StatusStep>)
    ensures |c| == 5
    ensures c == WatchOrderStatuses <==> orderType == "purchase"
    ensures c == ServiceOrderStatuses <==> orderType != "purchase"
  {
    if orderType == "purchase" then WatchOrderStatuses else ServiceOrderStatuses
  }

  function Keys(c: seq<StatusStep>): (ks: seq<string>)
    ensures |ks| == |c|
  {
    seq(|c|, i requires 0 <= i < |c| => c[i].key)
  }

  /** `findIndex(s => s.key === status)`: the first position of `status`
      among `keys`, or `None` for -1. */
  function IndexOf(keys: seq<string>, status: string): (r: Option<nat>)
    ensures r.Some? ==> r.value < |keys| && keys[r.value] == status
    ensures r.Some? ==> forall j :: 0 <= j < r.value ==> keys[j] != status
    ensures r.None? <==> status !in keys
  {
    if |keys| == 0 then None
    else if keys[0] == status then Some(0)
    else match IndexOf(keys[1..], status)
      case None => None
      case Some(i) => Some(i + 1)
  }

  ghost predicate Distinct(keys: seq<string>) {
    forall i, j :: 0 <= i < j < |keys| ==> keys[i] != keys[j]
  }

  lemma StatusKeysDistinct(orderType: string)
    ensures Distinct(Keys(StatusConfig(orderType)))
  {
  }

  lemma IndexOfDistinct(keys: seq<string>, i: nat)
    requires Distinct(keys) && i < |keys|
    ensures IndexOf(keys, keys[i]) == Some(i)
  {
  }

  /** `getStatusDisplay`: the entry whose key is `status`, or the first
      entry when there is none. */
  function StatusDisplay(status: string, orderType: string): (s: StatusStep)
    ensures s in StatusConfig(orderType)
    ensures status in Keys(StatusConfig(orderType)) ==> s.key == status
    ensures status !in Keys(StatusConfig(orderType)) ==> s == StatusConfig(orderType)[0]
  {
    var c := StatusConfig(orderType);
    match IndexOf(Keys(c), status)
    case Some(i) => c[i]
    case None => c[0]
  }

  /** The entry after `current` in `ks`, cyclically; the first entry when
      `current` is not listed. The wrap-around `(i + 1) % length` of a
      position `i < length` is written out as the choice it makes. */
  function Successor(ks: seq<string>, current: string): (next: string)
    requires |ks| > 0
    ensures next in ks
    ensures current !in ks ==> next == ks[0]
  {
    match IndexOf(ks, current)
    case None => ks[0]
    case Some(i) => if i + 1 < |ks| then ks[i + 1] else ks[0]
  }

  /** In a list without repeats, each entry's successor is the entry
      after it, the last one wrapping to the first. */
  lemma SuccessorOfListed(ks: seq<string>, i: nat)
    requires Distinct(ks) && i < |ks|
    ensures i + 1 < |ks| ==> Successor(ks, ks[i]) == ks[i + 1]
    ensures i + 1 == |ks| ==> Successor(ks, ks[i]) == ks[0]
  {
    IndexOfDistinct(ks, i);
  }

  /** `getNextStatus`: always one of the governing list's keys. */
  function NextStatus(current: string, orderType: string): (next: string)
    ensures next in Keys(StatusConfig(orderType))
  {
    Successor(Keys(StatusConfig(orderType)), current)
  }

  /** A listed status advances to the entry after it, the last one wrapping
      to the first. */
  lemma NextStatusOfListed(i: nat, orderType: string)
    requires i < 5
    ensures NextStatus(Keys(StatusConfig(orderType))[i], orderType)
         == Keys(StatusConfig(orderType))[(i + 1) % 5]
  {
    StatusKeysDistinct(orderType);
    SuccessorOfFive(Keys(StatusConfig(orderType)), i);
  }

  lemma SuccessorOfFive(ks: seq<string>, i: nat)
    requires Distinct(ks) && |ks| == 5 && i < 5
    ensures Successor(ks, ks[i]) == ks[(i + 1) % 5]
  {
    SuccessorOfListed(ks, i);
    if i < 4 {
      assert (i + 1) % 5 == i + 1;
    } else {
      assert (i + 1) % 5 == 0;
    }
  }

  /** Before the last entry, a click moves to the next entry. */
  lemma NextStatusAdvances(i: nat, orderType: string)
    requires i < 4
    ensures NextStatus(Keys(StatusConfig(orderType))[i], orderType) == Keys(StatusConfig(orderType))[i + 1]
  {
    StatusKeysDistinct(orderType);
    SuccessorOfListed(Keys(StatusConfig(orderType)), i);
  }

  /** An unknown or missing status restarts at the list's first key. */
  lemma NextStatusOfUnlisted(current: string, orderType: string)
    requires current !in Keys(StatusConfig(orderType))
    ensures NextStatus(current, orderType) == StatusConfig(orderType)[0].key
  {
  }

  /** The last status of either list wraps to the first. */
  lemma DeliveredWraps(orderType: string)
    ensures NextStatus("delivered", orderType) == StatusConfig(orderType)[0].key
  {
    var ks := Keys(StatusConfig(orderType));
    LastKeyDelivered(orderType);
    StatusKeysDistinct(orderType);
    SuccessorOfListed(ks, 4);
  }

  lemma LastKeyDelivered(orderType: string)
    ensures Keys(StatusConfig(orderType))[4] == "delivered"
  {
  }

  lemma CyclicStep(i: nat, n: nat)
    requires i < 5 && n > 0
    ensures ((i + 1) % 5 + (n - 1)) % 5 == (i + n) % 5
  {
    if i == 4 {
      assert i + n == (n - 1) + 5;
    }
  }

  /** `n` applications of `step`, starting from `s`. */
  function Iterate(step: string -> string, s: string, n: nat): string
    decreases n
  {
    if n == 0 then s else Iterate(step, step(s), n - 1)
  }

  /** A step that moves every entry of a five-entry list to the next one,
      cyclically, lands `n` entries further on after `n` applications. */
  lemma {:induction false} IterateCycle(step: string -> string, ks: seq<string>, i: nat, n: nat)
    requires |ks| == 5 && i < 5
    requires forall j :: 0 <= j < 5 ==> step(ks[j]) == ks[(j + 1) % 5]
    ensures Iterate(step, ks[i], n) == ks[(i + n) % 5]
    decreases n
  {
    if n > 0 {
      IterateCycle(step, ks, (i + 1) % 5, n - 1);
      CyclicStep(i, n);
    }
  }

  /** One "update status" click on an order of `orderType`. */
  function Click(orderType: string): string -> string {
    s => NextStatus(s, orderType)
  }

  /** `n` consecutive clicks. */
  function Advance(status: string, orderType: string, n: nat): string {
    Iterate(Click(orderType), status, n)
  }

  /** The clicks move a listed status along its list, cyclically: after
      `n` clicks the status at position `i` becomes the one at `(i + n) % 5`. */
  lemma AdvanceCycles(i: nat, orderType: string, n: nat)
    requires i < 5
    ensures Advance(Keys(StatusConfig(orderType))[i], orderType, n)
         == Keys(StatusConfig(orderType))[(i + n) % 5]
  {
    var ks := Keys(StatusConfig(orderType));
    var step := Click(orderType);
    forall j | 0 <= j < 5 ensures step(ks[j]) == ks[(j + 1) % 5] {
      NextStatusOfListed(j, orderType);
    }
    IterateCycle(step, ks, i, n);
  }

  /** Any multiple of five clicks brings a listed status back to itself. */
  lemma FiveAdvancesReturn(status: string, orderType: string, n: nat)
    requires status in Keys(StatusConfig(orderType))
    requires n % 5 == 0
    ensures Advance(status, orderType, n) == status
  {
    var ks := Keys(StatusConfig(orderType));
    var r := IndexOf(ks, status);
    var i := r.value;
    assert (i + n) % 5 == i;
    AdvanceCycles(i, orderType, n);
  }
}
