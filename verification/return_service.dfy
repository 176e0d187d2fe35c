/** The return service: lookups, the list defaults, and the lifecycle
    operations create, fulfill, receive, cancel and update. Every operation
    is all-or-nothing: an error yields no new store. */
module ReturnService {
  import opened Results
  import opened Entities
  import opened LineItems
  import opened Refunds

  /* ---------- persistence ---------- */

  /** Replaces the stored row of `ret` (every row with its id) by `ret`. */
  function Put(rows: seq<Return>, ret: Return): (out: seq<Return>)
    ensures |out| == |rows|
    ensures forall k :: 0 <= k < |rows| ==> out[k] == (if rows[k].id == ret.id then ret else rows[k])
  {
    seq(|rows|, k requires 0 <= k < |rows| => if rows[k].id == ret.id then ret else rows[k])
  }

  /** retrieve: the first return with the given id; an undefined id or no
      such return is NotFound. */
  function Retrieve(rows: seq<Return>, returnId: Option<Id>): (r: Result<Return>)
    ensures r.Err? <==> returnId.None? || forall k :: 0 <= k < |rows| ==> rows[k].id != returnId.value
    ensures r.Err? ==> r.error == NotFound
    ensures r.Ok? ==> r.value in rows && returnId == Some(r.value.id)
  {
    match returnId
    case None => Err(NotFound)
    case Some(id) =>
      match FirstWhere(rows, (x: Return) => x.id == id)
      case None => Err(NotFound)
      case Some(k) => Ok(rows[k])
  }

  /** retrieveBySwap: the first return belonging to the swap, or NotFound. */
  function RetrieveBySwap(rows: seq<Return>, swapId: Id): (r: Result<Return>)
    ensures r.Err? <==> forall k :: 0 <= k < |rows| ==> rows[k].swapId != Some(swapId)
    ensures r.Err? ==> r.error == NotFound
    ensures r.Ok? ==> exists k :: 0 <= k < |rows| && rows[k] == r.value && r.value.swapId == Some(swapId)
                                  && forall j :: 0 <= j < k ==> rows[j].swapId != Some(swapId)
  {
    match FirstWhere(rows, (x: Return) => x.swapId == Some(swapId))
    case None => Err(NotFound)
    case Some(k) => Ok(rows[k])
  }

  /** Saving a return and retrieving it by its id yields the saved return. */
  lemma RetrieveAfterPut(rows: seq<Return>, ret: Return)
    requires exists k :: 0 <= k < |rows| && rows[k].id == ret.id
    ensures Retrieve(Put(rows, ret), Some(ret.id)) == Ok(ret)
  {
    var k :| 0 <= k < |rows| && rows[k].id == ret.id;
    assert Put(rows, ret)[k].id == ret.id;
    var r := Retrieve(Put(rows, ret), Some(ret.id));
    var j :| 0 <= j < |rows| && Put(rows, ret)[j] == r.value;
  }

  /** The configuration `list` uses when the caller passes none. */
  const DefaultListConfig: FindConfig := FindConfig(Some(0), Some(50), map["created_at" := Desc])

  /** list: without a configuration it skips nothing, takes 50 and orders by
      creation time, newest first; a configuration passed in is used as is. */
  function ListConfig(config: Option<FindConfig>): (r: FindConfig)
    ensures config.None? ==> r.skip == Some(0) && r.take == Some(50) && r.order == map["created_at" := Desc]
    ensures config.Some? ==> r == config.value
  {
    config.GetOr(DefaultListConfig)
  }

  /* ---------- cancel and update ---------- */

  /** cancel: a received return cannot be canceled; any other return becomes
      canceled with every other field kept. */
  function Cancel(store: Store, returnId: Id): (r: Result<Outcome>)
    ensures var found := Retrieve(store.returnRows, Some(returnId));
            && (found.Err? ==> r == Err(NotFound))
            && (found.Ok? ==> (r.Err? <==> found.value.status == ReturnStatus.Received))
            && (r.Err? ==> r.error in {NotFound, NotAllowed})
            && (found.Ok? && r.Err? ==> r.error == NotAllowed)
            && (r.Ok? ==>
                  && r.value.ret == found.value.(status := ReturnStatus.Canceled)
                  && r.value.store == store.(returnRows := Put(store.returnRows, r.value.ret))
                  && r.value.effects == [])
  {
    var ret :- Retrieve(store.returnRows, Some(returnId));
    if ret.status == ReturnStatus.Received then Err(NotAllowed)
    else
      var canceled := ret.(status := ReturnStatus.Canceled);
      Ok(Outcome(store.(returnRows := Put(store.returnRows, canceled)), canceled, []))
  }

  /** update: a canceled return cannot be updated. Supplied metadata goes
      through the metadata merge policy (`setMetadata`, a parameter), every
      other supplied field overwrites the stored one, and nothing else changes. */
  function Update(store: Store, returnId: Id, patch: ReturnPatch,
                  setMetadata: (Return, Metadata) -> Metadata): (r: Result<Outcome>)
    ensures var found := Retrieve(store.returnRows, Some(returnId));
            && (found.Err? ==> r == Err(NotFound))
            && (found.Ok? ==> (r.Err? <==> found.value.status == ReturnStatus.Canceled))
            && (r.Err? ==> r.error in {NotFound, NotAllowed})
            && (found.Ok? && r.Err? ==> r.error == NotAllowed)
            && (r.Ok? ==>
                  var prior := found.value;
                  && r.value.ret.noNotification == (if patch.noNotification.Some? then patch.noNotification else prior.noNotification)
                  && r.value.ret.locationId == (if patch.locationId.Some? then patch.locationId else prior.locationId)
                  && r.value.ret.refundAmount == patch.refundAmount.GetOr(prior.refundAmount)
                  && r.value.ret.metadata == (if patch.metadata.Some? then setMetadata(prior, patch.metadata.value) else prior.metadata)
                  && r.value.ret.(noNotification := prior.noNotification, locationId := prior.locationId,
                                  refundAmount := prior.refundAmount, metadata := prior.metadata) == prior
                  && r.value.store == store.(returnRows := Put(store.returnRows, r.value.ret))
                  && r.value.effects == [])
  {
    var ret :- Retrieve(store.returnRows, Some(returnId));
    if ret.status == ReturnStatus.Canceled then Err(NotAllowed)
    else
      var withMetadata := if patch.metadata.Some? then ret.(metadata := setMetadata(ret, patch.metadata.value)) else ret;
      var updated := withMetadata.(
        noNotification := if patch.noNotification.Some? then patch.noNotification else withMetadata.noNotification,
        locationId := if patch.locationId.Some? then patch.locationId else withMetadata.locationId,
        refundAmount := patch.refundAmount.GetOr(withMetadata.refundAmount));
      Ok(Outcome(store.(returnRows := Put(store.returnRows, updated)), updated, []))
  }

  /* ---------- create ---------- */

  /** Whether the order, swap or claim of a line item has `canceled_at` set. */
  predicate ParentCanceled(item: LineItem) {
    item.orderCanceled || item.swapCanceled || item.claimCanceled
  }

  /** Whether request `req` names a stored line item of a live order, swap and claim. */
  predicate ItemLive(lineItems: map<Id, LineItem>, req: ReturnRequest) {
    req.itemId in lineItems && !ParentCanceled(lineItems[req.itemId])
  }

  /** The first loop of `create`: each requested item is retrieved (NotFound
      when absent) and rejected with InvalidData when its order, swap or claim
      is canceled; the first offending request in order decides the error. */
  function CheckItemsLive(lineItems: map<Id, LineItem>, reqs: seq<ReturnRequest>): (r: Check)
    ensures r.Pass? <==> forall i :: 0 <= i < |reqs| ==> ItemLive(lineItems, reqs[i])
    ensures r.Fail? ==> exists i :: 0 <= i < |reqs| && !ItemLive(lineItems, reqs[i])
                                    && (forall j :: 0 <= j < i ==> ItemLive(lineItems, reqs[j]))
                                    && r.error == (if reqs[i].itemId in lineItems then InvalidData else NotFound)
    decreases |reqs|
  {
    if |reqs| == 0 then Pass
    else if reqs[0].itemId !in lineItems then Fail(NotFound)
    else if ParentCanceled(lineItems[reqs[0].itemId]) then Fail(InvalidData)
    else
      var rest := CheckItemsLive(lineItems, reqs[1..]);
      assert forall i :: 0 <= i < |reqs| - 1 ==> reqs[1..][i] == reqs[i + 1];
      rest
  }

  /** orderService.retrieve: the first order with the id, or NotFound. */
  function FindOrder(orders: seq<Order>, orderId: Option<Id>): (r: Result<Order>)
    ensures r.Err? <==> orderId.None? || forall k :: 0 <= k < |orders| ==> orders[k].id != orderId.value
    ensures r.Err? ==> r.error == NotFound
    ensures r.Ok? ==> r.value in orders && orderId == Some(r.value.id)
  {
    match orderId
    case None => Err(NotFound)
    case Some(id) =>
      match FirstWhere(orders, (o: Order) => o.id == id)
      case None => Err(NotFound)
      case Some(k) => Ok(orders[k])
  }

  /** Whether some resolved line names a return reason that has children. */
  predicate UsesReasonCategory(reasons: seq<ReturnReason>, lines: seq<ResolvedLine>) {
    exists k, i :: 0 <= k < |reasons| && 0 <= i < |lines|
                   && lines[i].reasonId == Some(reasons[k].id) && |reasons[k].children| > 0
  }

  /** The stored row for a resolved line: quantity and requested quantity are
      the requested quantity. */
  function ToReturnItem(l: ResolvedLine): ReturnItem {
    ReturnItem(l.line.id, l.line.quantity, Some(l.line.quantity), None, true, l.reasonId, l.note, l.line.metadata)
  }

  /** Whether the create request attaches a shipping method with a truthy option id. */
  predicate AttachesShipping(data: CreateReturnInput) {
    data.shippingMethod.Some? && data.shippingMethod.value.optionId != ""
  }

  /** The lines `create` resolves: the order exists and every requested line
      validates against its items as the line-item table holds them. */
  function CreateLines(store: Store, env: Env, data: CreateReturnInput): Result<(Order, seq<ResolvedLine>)> {
    var found :- FindOrder(env.orders, data.orderId);
    var order := Reload(found, store.lineItems);
    var lines :- GetFulfillmentItems(order, data.items, ValidateReturnLineItem);
    Ok((order, lines))
  }

  /** The return `create` persists for resolved lines and a starting refund,
      with the shipping method attached when the request names one. */
  function Assemble(store: Store, data: CreateReturnInput, lines: seq<ResolvedLine>, toRefund: real,
                    newId: Id, shippingPrice: int, taxRates: seq<real>): (o: Outcome)
    ensures o.ret.id == newId && o.ret.status == ReturnStatus.Requested && o.ret.shippingData.None?
    ensures o.ret.orderId == (if Truthy(data.swapId) then None else data.orderId)
    ensures && o.ret.swapId == data.swapId && o.ret.claimOrderId == data.claimOrderId
            && o.ret.locationId == data.locationId && o.ret.noNotification == data.noNotification
            && o.ret.metadata == data.metadata
    ensures |o.ret.items| == |lines| && forall i :: 0 <= i < |lines| ==> o.ret.items[i] == ToReturnItem(lines[i])
    ensures o.store == store.(returnRows := store.returnRows + [o.ret])
    ensures !AttachesShipping(data) ==>
              o.ret.refundAmount == toRefund.Floor as real && o.ret.shippingMethod.None? && o.effects == []
    ensures AttachesShipping(data) ==>
              && o.ret.refundAmount == FinalRefund(data.refundAmount, toRefund, Some(ShippingTotal(shippingPrice, taxRates)))
              && o.ret.shippingMethod == Some(ShippingMethod(data.shippingMethod.value.optionId, shippingPrice))
              && o.effects == [CreateShippingMethod(data.shippingMethod.value.optionId, data.shippingMethod.value.price, newId)]
  {
    var items := seq(|lines|, i requires 0 <= i < |lines| => ToReturnItem(lines[i]));
    var created := Return(newId, if Truthy(data.swapId) then None else data.orderId, data.swapId,
                          data.claimOrderId, ReturnStatus.Requested, items, toRefund.Floor as real,
                          None, None, data.locationId, data.noNotification, data.metadata);
    if AttachesShipping(data) then
      var m := data.shippingMethod.value;
      var total := ShippingTotal(shippingPrice, taxRates);
      var ret := created.(shippingMethod := Some(ShippingMethod(m.optionId, shippingPrice)),
                          refundAmount := FinalRefund(data.refundAmount, toRefund, Some(total)));
      Outcome(store.(returnRows := store.returnRows + [ret]), ret, [CreateShippingMethod(m.optionId, m.price, newId)])
    else
      Outcome(store.(returnRows := store.returnRows + [created]), created, [])
  }

  /** create. Collaborators are parameters: `refundTotal` is the totals
      service's refund total, `newId` the id the database assigns,
      `shippingPrice` the price of the shipping method the shipping option
      service creates and `taxRates` the rates of the tax lines the tax
      provider creates for it.

      Errors, in order: a missing item (NotFound) or an item of a canceled
      order, swap or claim (InvalidData); a missing order (NotFound); a line
      that fails validation; a defined refund above the refundable amount
      (InvalidData); a reason category (InvalidData). Once none of these
      occurs, create succeeds. */
  function Create(store: Store, env: Env, data: CreateReturnInput,
                  refundTotal: (Order, seq<ResolvedLine>) -> real, newId: Id,
                  shippingPrice: int, taxRates: seq<real>): (r: Result<Outcome>)
    ensures CheckItemsLive(store.lineItems, data.items).Fail? ==>
              r == Err(CheckItemsLive(store.lineItems, data.items).error)
    ensures CheckItemsLive(store.lineItems, data.items).Pass? && CreateLines(store, env, data).Err? ==>
              r == Err(CreateLines(store, env, data).error)
    ensures r.Ok? ==> (forall i :: 0 <= i < |data.items| ==> ItemLive(store.lineItems, data.items[i]))
                      && CreateLines(store, env, data).Ok?
    ensures CheckItemsLive(store.lineItems, data.items).Pass? && CreateLines(store, env, data).Ok? ==>
              var order := CreateLines(store, env, data).value.0;
              var lines := CreateLines(store, env, data).value.1;
              && ((RefundRejected(data.refundAmount, order.refundableAmount) || UsesReasonCategory(env.reasons, lines))
                    ==> r == Err(InvalidData))
              && ((!RefundRejected(data.refundAmount, order.refundableAmount) && !UsesReasonCategory(env.reasons, lines))
                    ==> var toRefund := InitialRefund(data.refundAmount, order.refundableAmount, refundTotal(order, lines)).value;
                        r == Ok(Assemble(store, data, lines, toRefund, newId, shippingPrice, taxRates)))
  {
    var live := CheckItemsLive(store.lineItems, data.items);
    if live.Fail? then Err(live.error)
    else
      var (order, lines) :- CreateLines(store, env, data);
      var toRefund :- InitialRefund(data.refundAmount, order.refundableAmount, refundTotal(order, lines));
      if UsesReasonCategory(env.reasons, lines) then Err(InvalidData)
      else Ok(Assemble(store, data, lines, toRefund, newId, shippingPrice, taxRates))
  }

  /* ---------- fulfill ---------- */

  /** The stored line item behind each return item, when there is one (the
      line items listed by id and matched back to the return's items). */
  function ItemDetails(items: seq<ReturnItem>, lineItems: map<Id, LineItem>): (d: seq<Option<LineItem>>)
    ensures |d| == |items|
    ensures forall i :: 0 <= i < |items| ==>
              d[i] == if items[i].itemId in lineItems then Some(lineItems[items[i].itemId]) else None
  {
    seq(|items|, i requires 0 <= i < |items| =>
      if items[i].itemId in lineItems then Some(lineItems[items[i].itemId]) else None)
  }

  /** fulfill: a canceled return, or one that already has shipping data,
      cannot be fulfilled; a return without shipping method is returned
      unchanged; otherwise the fulfillment provider (`createReturn`, a
      parameter) produces the shipping data, which is stored. */
  function Fulfill(store: Store, returnId: Id,
                   createReturn: (Return, seq<Option<LineItem>>) -> ShippingData): (r: Result<Outcome>)
    ensures var found := Retrieve(store.returnRows, Some(returnId));
            && (found.Err? ==> r == Err(NotFound))
            && (found.Ok? ==> (r.Err? <==> found.value.status == ReturnStatus.Canceled || found.value.shippingData.Some?))
            && (r.Err? ==> r.error in {NotFound, NotAllowed})
            && (found.Ok? && r.Err? ==> r.error == NotAllowed)
            && (r.Ok? && found.value.shippingMethod.None? ==> r.value == Outcome(store, found.value, []))
            && (r.Ok? && found.value.shippingMethod.Some? ==>
                  && r.value.ret.shippingData.Some?
                  && r.value.ret == found.value.(shippingData := r.value.ret.shippingData)
                  && r.value.ret.shippingData.value
                     == createReturn(found.value, ItemDetails(found.value.items, store.lineItems))
                  && r.value.store == store.(returnRows := Put(store.returnRows, r.value.ret))
                  && r.value.effects == [])
  {
    var ret :- Retrieve(store.returnRows, Some(returnId));
    if ret.status == ReturnStatus.Canceled then Err(NotAllowed)
    else if ret.shippingData.Some? then Err(NotAllowed)
    else if ret.shippingMethod.None? then Ok(Outcome(store, ret, []))
    else
      var fulfilled := ret.(shippingData := Some(createReturn(ret, ItemDetails(ret.items, store.lineItems))));
      Ok(Outcome(store.(returnRows := Put(store.returnRows, fulfilled)), fulfilled, []))
  }

  /* ---------- receive ---------- */

  /** The order a return belongs to: the swap's order when the return is
      tied to an existing swap, its own order id otherwise. */
  function ParentOrderId(ret: Return, swapOrders: map<Id, Id>): (id: Option<Id>)
    ensures ret.swapId.Some? && ret.swapId.value in swapOrders ==> id == Some(swapOrders[ret.swapId.value])
    ensures ret.swapId.None? || ret.swapId.value !in swapOrders ==> id == ret.orderId
  {
    if ret.swapId.Some? && ret.swapId.value in swapOrders then Some(swapOrders[ret.swapId.value]) else ret.orderId
  }

  /** The first stored return item for a line item. */
  function FindReturnItem(items: seq<ReturnItem>, itemId: Id): (r: Option<ReturnItem>)
    ensures r.Some? ==> r.value in items && r.value.itemId == itemId
    ensures r.None? <==> forall k :: 0 <= k < |items| ==> items[k].itemId != itemId
    ensures r.Some? ==> exists k :: 0 <= k < |items| && items[k] == r.value
                                    && forall j :: 0 <= j < k ==> items[j].itemId != itemId
  {
    match FirstWhere(items, (x: ReturnItem) => x.itemId == itemId)
    case None => None
    case Some(k) => Some(items[k])
  }

  /** The row `receive` stores for a received line. A line already on the
      return keeps its stored fields, records the stored quantity as the
      requested one and is `is_requested` exactly when the received quantity
      equals it; a line not on the return is never `is_requested`. */
  function ReconcileLine(existing: seq<ReturnItem>, l: ResolvedLine): (r: ReturnItem)
    ensures r.itemId == l.line.id && r.quantity == l.line.quantity && r.receivedQuantity == Some(l.line.quantity)
    ensures r.isRequested <==> var e := FindReturnItem(existing, l.line.id); e.Some? && e.value.quantity == l.line.quantity
    ensures var e := FindReturnItem(existing, l.line.id);
            e.Some? ==> && r.requestedQuantity == Some(e.value.quantity)
                        && r.reasonId == e.value.reasonId && r.note == e.value.note && r.metadata == e.value.metadata
    ensures FindReturnItem(existing, l.line.id).None? ==>
              r.requestedQuantity.None? && r.reasonId.None? && r.note.None? && r.metadata == l.line.metadata
  {
    match FindReturnItem(existing, l.line.id)
    case Some(e) =>
      e.(quantity := l.line.quantity, requestedQuantity := Some(e.quantity),
         receivedQuantity := Some(l.line.quantity), isRequested := l.line.quantity == e.quantity)
    case None =>
      ReturnItem(l.line.id, l.line.quantity, None, Some(l.line.quantity), false, None, None, l.line.metadata)
  }

  /** Status after receipt: requires_action when some received line
      mismatches and mismatches are not allowed, received otherwise. Lines
      that were requested but not received play no part. */
  function ReceivedStatus(lines: seq<ReturnItem>, allowMismatch: bool): (s: ReturnStatus)
    ensures s == ReturnStatus.RequiresAction <==>
              !allowMismatch && exists k :: 0 <= k < |lines| && !lines[k].isRequested
    ensures s != ReturnStatus.RequiresAction ==> s == ReturnStatus.Received
  {
    if (forall k :: 0 <= k < |lines| ==> lines[k].isRequested) || allowMismatch
    then ReturnStatus.Received
    else ReturnStatus.RequiresAction
  }

  /** Total stored quantity of the return items for one line item. */
  function QuantityFor(items: seq<ReturnItem>, itemId: Id): int
    decreases |items|
  {
    if |items| == 0 then 0
    else (if items[0].itemId == itemId then items[0].quantity else 0) + QuantityFor(items[1..], itemId)
  }

  /** The second loop of `receive`: each return item in turn retrieves its
      line item (NotFound when absent) and adds the item's stored quantity to
      the line item's returned quantity. */
  function IncrementReturned(lineItems: map<Id, LineItem>, items: seq<ReturnItem>): (r: Result<map<Id, LineItem>>)
    ensures r.Ok? <==> forall k :: 0 <= k < |items| ==> items[k].itemId in lineItems
    ensures r.Err? ==> r.error == NotFound
    ensures r.Ok? ==> r.value.Keys == lineItems.Keys
    decreases |items|
  {
    if |items| == 0 then Ok(lineItems)
    else
      var id := items[0].itemId;
      if id !in lineItems then Err(NotFound)
      else
        var bumped := lineItems[id := lineItems[id].(returnedQuantity := lineItems[id].returnedQuantity + items[0].quantity)];
        var rest := IncrementReturned(bumped, items[1..]);
        assert forall k :: 0 <= k < |items| - 1 ==> items[1..][k] == items[k + 1];
        rest
  }

  /** Each line item's returned quantity grows by the summed stored
      quantity of the return items for it, and by nothing else. */
  lemma {:induction false} IncrementReturnedCounts(lineItems: map<Id, LineItem>, items: seq<ReturnItem>)
    ensures var r := IncrementReturned(lineItems, items);
            r.Ok? ==> forall id :: id in lineItems ==>
              r.value[id] == lineItems[id].(returnedQuantity := lineItems[id].returnedQuantity + QuantityFor(items, id))
    decreases |items|
  {
    if |items| > 0 && items[0].itemId in lineItems {
      var id := items[0].itemId;
      var bumped := lineItems[id := lineItems[id].(returnedQuantity := lineItems[id].returnedQuantity + items[0].quantity)];
      IncrementReturnedCounts(bumped, items[1..]);
      var r := IncrementReturned(lineItems, items);
      if r.Ok? {
        forall j | j in lineItems
          ensures r.value[j] == lineItems[j].(returnedQuantity := lineItems[j].returnedQuantity + QuantityFor(items, j))
        {
          assert QuantityFor(items, j) == (if id == j then items[0].quantity else 0) + QuantityFor(items[1..], j);
        }
      }
    }
  }

  /** The inventory adjustment for a received line: only when the line's
      item is one of the order's own items and has a variant. */
  function AdjustmentFor(orderItems: seq<LineItem>, line: ReturnItem, location: Option<Id>): Option<Effect> {
    match FindById(orderItems, line.itemId)
    case Some(item) =>
      if Truthy(item.variantId) then Some(AdjustInventory(item.variantId.value, location, line.receivedQuantity.GetOr(0)))
      else None
    case None => None
  }

  /** The third loop of `receive`: one inventory increase per received line
      whose order item has a variant, in line order. */
  function InventoryAdjustments(orderItems: seq<LineItem>, lines: seq<ReturnItem>, location: Option<Id>): (r: seq<Effect>)
    ensures |r| <= |lines|
    ensures forall e :: e in r ==> exists k :: 0 <= k < |lines| && AdjustmentFor(orderItems, lines[k], location) == Some(e)
    ensures forall k :: 0 <= k < |lines| && AdjustmentFor(orderItems, lines[k], location).Some? ==>
              AdjustmentFor(orderItems, lines[k], location).value in r
    decreases |lines|
  {
    if |lines| == 0 then []
    else
      var rest := InventoryAdjustments(orderItems, lines[1..], location);
      assert forall k :: 0 <= k < |lines| - 1 ==> lines[1..][k] == lines[k + 1];
      match AdjustmentFor(orderItems, lines[0], location)
      case Some(e) => [e] + rest
      case None => rest
  }

  /** Whether a received line calls for exactly the adjustment `e`. */
  function CallsFor(orderItems: seq<LineItem>, location: Option<Id>, e: Effect): ReturnItem -> bool {
    line => AdjustmentFor(orderItems, line, location) == Some(e)
  }

  /** The received lines whose adjustment is exactly `e`. */
  function AdjustingLines(orderItems: seq<LineItem>, lines: seq<ReturnItem>, location: Option<Id>, e: Effect): set<nat> {
    Indices(lines, CallsFor(orderItems, location, e))
  }

  /** One inventory increase per received line: each adjustment occurs in
      the effects exactly as often as there are lines that call for it, so
      two lines with the same variant and quantity restock twice. */
  lemma {:induction false} InventoryAdjustmentsCount(orderItems: seq<LineItem>, lines: seq<ReturnItem>,
                                                     location: Option<Id>, e: Effect)
    ensures multiset(InventoryAdjustments(orderItems, lines, location))[e]
            == |AdjustingLines(orderItems, lines, location, e)|
    decreases |lines|
  {
    if |lines| == 0 {
      assert AdjustingLines(orderItems, lines, location, e) == {};
    } else {
      InventoryAdjustmentsCount(orderItems, lines[1..], location, e);
      IndicesSplit(lines, CallsFor(orderItems, location, e));
    }
  }

  /** The order `receive` validates against: the return's parent order,
      loaded with its items as the line-item table holds them. */
  function ReceiveOrder(store: Store, env: Env, prior: Return): Result<Order> {
    var found :- FindOrder(env.orders, ParentOrderId(prior, env.swapOrders));
    Ok(Reload(found, store.lineItems))
  }

  /** When `receive` succeeds: the return exists and is requested or
      requires action, its parent order exists, every received line
      validates against that order, and every item on the return before the
      call is a stored line item (which IncrementReturned succeeds on). */
  predicate Receivable(store: Store, env: Env, returnId: Id, received: seq<ReturnRequest>) {
    var found := Retrieve(store.returnRows, Some(returnId));
    && found.Ok?
    && (found.value.status == ReturnStatus.Requested || found.value.status == ReturnStatus.RequiresAction)
    && ReceiveOrder(store, env, found.value).Ok?
    && GetFulfillmentItems(ReceiveOrder(store, env, found.value).value, received, ValidateReturnLineItem).Ok?
    && IncrementReturned(store.lineItems, found.value.items).Ok?
  }

  /** What a successful `receive` writes, given the return as it was, the
      order it validated against, the validated lines and the line-item table
      after the returned quantities were raised. */
  function ApplyReceipt(store: Store, prior: Return, order: Order, lines: seq<ResolvedLine>,
                        lineItems: map<Id, LineItem>, refundAmount: Option<real>, allowMismatch: bool,
                        locationId: Option<Id>): (o: Outcome)
    ensures |o.ret.items| == |lines|
    ensures forall k :: 0 <= k < |lines| ==> o.ret.items[k] == ReconcileLine(prior.items, lines[k])
    ensures o.ret.status == ReceivedStatus(o.ret.items, allowMismatch)
    ensures o.ret.refundAmount == refundAmount.GetOr(prior.refundAmount)
    ensures o.ret.locationId == (if Truthy(locationId) then locationId else prior.locationId)
    ensures o.ret.(status := prior.status, items := prior.items, refundAmount := prior.refundAmount,
                   locationId := prior.locationId) == prior
    ensures o.store == Store(Put(store.returnRows, o.ret), lineItems)
    ensures o.effects == InventoryAdjustments(order.items, o.ret.items, o.ret.locationId)
  {
    var newLines := seq(|lines|, k requires 0 <= k < |lines| => ReconcileLine(prior.items, lines[k]));
    var updated := prior.(
      locationId := if Truthy(locationId) then locationId else prior.locationId,
      status := ReceivedStatus(newLines, allowMismatch),
      items := newLines,
      refundAmount := refundAmount.GetOr(prior.refundAmount));
    Outcome(Store(Put(store.returnRows, updated), lineItems), updated,
            InventoryAdjustments(order.items, newLines, updated.locationId))
  }

  /** receive. A canceled or already received return cannot be received.
      The received lines are validated against the parent order's pool; each
      becomes a reconciled row; status, refund (`refundAmount ?? prior`) and
      location (`locationId || prior`) are set; then every item previously on
      the return adds its stored quantity to its line item's returned
      quantity, and inventory is increased for the received lines. */
  function Receive(store: Store, env: Env, returnId: Id, received: seq<ReturnRequest>,
                   refundAmount: Option<real>, allowMismatch: bool, locationId: Option<Id>): (r: Result<Outcome>)
    ensures r.Ok? <==> Receivable(store, env, returnId, received)
    ensures var found := Retrieve(store.returnRows, Some(returnId));
            && (found.Err? ==> r == Err(NotFound))
            && (found.Ok? && found.value.status == ReturnStatus.Canceled ==> r == Err(NotAllowed))
            && ((found.Ok? && found.value.status != ReturnStatus.Canceled &&
                 ReceiveOrder(store, env, found.value).Err?) ==> r == Err(NotFound))
            && ((found.Ok? && found.value.status == ReturnStatus.Received &&
                 ReceiveOrder(store, env, found.value).Ok?) ==> r == Err(NotAllowed))
            && ((found.Ok? && (found.value.status == ReturnStatus.Requested || found.value.status == ReturnStatus.RequiresAction) &&
                 ReceiveOrder(store, env, found.value).Ok?) ==>
                  var lines := GetFulfillmentItems(ReceiveOrder(store, env, found.value).value, received, ValidateReturnLineItem);
                  && (lines.Err? ==> r == Err(lines.error))
                  && (lines.Ok? && IncrementReturned(store.lineItems, found.value.items).Err? ==> r == Err(NotFound)))
            && (r.Ok? ==>
                  var prior := found.value;
                  var order := ReceiveOrder(store, env, prior).value;
                  r.value == ApplyReceipt(store, prior, order,
                                          GetFulfillmentItems(order, received, ValidateReturnLineItem).value,
                                          IncrementReturned(store.lineItems, prior.items).value,
                                          refundAmount, allowMismatch, locationId))
  {
    var ret :- Retrieve(store.returnRows, Some(returnId));
    if ret.status == ReturnStatus.Canceled then Err(NotAllowed)
    else
      var order :- ReceiveOrder(store, env, ret);
      if ret.status == ReturnStatus.Received then Err(NotAllowed)
      else
        var lines :- GetFulfillmentItems(order, received, ValidateReturnLineItem);
        var lineItems :- IncrementReturned(store.lineItems, ret.items);
        Ok(ApplyReceipt(store, ret, order, lines, lineItems, refundAmount, allowMismatch, locationId))
  }
}
