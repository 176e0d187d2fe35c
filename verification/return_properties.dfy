/** Properties of the return service that relate several calls, or that
    restate an operation's result in terms of the caller's request. */
module ReturnProperties {
  import opened Results
  import opened Entities
  import opened LineItems
  import opened Refunds
  import opened ReturnService

  /* ---------- cancel ---------- */

  /** Canceling twice is the same as canceling once. */
  lemma CancelIdempotent(store: Store, returnId: Id)
    requires Cancel(store, returnId).Ok?
    ensures var first := Cancel(store, returnId).value;
            Cancel(first.store, returnId) == Ok(first)
  {
    var first := Cancel(store, returnId).value;
    var found := Retrieve(store.returnRows, Some(returnId)).value;
    var k :| 0 <= k < |store.returnRows| && store.returnRows[k] == found;
    RetrieveAfterPut(store.returnRows, first.ret);
    assert Put(first.store.returnRows, first.ret) == first.store.returnRows;
  }

  /** A canceled return can be neither received, fulfilled nor updated, and
      canceling it again changes nothing. */
  lemma CanceledReturnIsFrozen(store: Store, env: Env, returnId: Id, received: seq<ReturnRequest>,
                               refundAmount: Option<real>, allowMismatch: bool, locationId: Option<Id>,
                               patch: ReturnPatch, setMetadata: (Return, Metadata) -> Metadata,
                               createReturn: (Return, seq<Option<LineItem>>) -> ShippingData)
    requires Retrieve(store.returnRows, Some(returnId)).Ok?
    requires Retrieve(store.returnRows, Some(returnId)).value.status == ReturnStatus.Canceled
    ensures Receive(store, env, returnId, received, refundAmount, allowMismatch, locationId) == Err(NotAllowed)
    ensures Fulfill(store, returnId, createReturn) == Err(NotAllowed)
    ensures Update(store, returnId, patch, setMetadata) == Err(NotAllowed)
    ensures Cancel(store, returnId).Ok? && Cancel(store, returnId).value.ret == Retrieve(store.returnRows, Some(returnId)).value
  {
  }

  /** A return that a receive left `received` can no longer be canceled,
      and receiving it again is not allowed, whatever either call's options. */
  lemma ReceivedReturnIsFinal(store: Store, env: Env, returnId: Id, received: seq<ReturnRequest>,
                              refundAmount: Option<real>, allowMismatch: bool, locationId: Option<Id>,
                              received2: seq<ReturnRequest>, refundAmount2: Option<real>,
                              allowMismatch2: bool, locationId2: Option<Id>)
    ensures var r := Receive(store, env, returnId, received, refundAmount, allowMismatch, locationId);
            r.Ok? && r.value.ret.status == ReturnStatus.Received ==>
              && Cancel(r.value.store, returnId) == Err(NotAllowed)
              && Receive(r.value.store, env, returnId, received2, refundAmount2, allowMismatch2, locationId2) == Err(NotAllowed)
  {
    var r := Receive(store, env, returnId, received, refundAmount, allowMismatch, locationId);
    if r.Ok? && r.value.ret.status == ReturnStatus.Received {
      var found := Retrieve(store.returnRows, Some(returnId)).value;
      var k :| 0 <= k < |store.returnRows| && store.returnRows[k] == found;
      RetrieveAfterPut(store.returnRows, r.value.ret);
      assert ParentOrderId(r.value.ret, env.swapOrders) == ParentOrderId(found, env.swapOrders);
    }
  }

  /* ---------- fulfill ---------- */

  /** A return is fulfilled at most once: after a fulfillment that produced
      shipping data, fulfilling again is not allowed. */
  lemma FulfillOnce(store: Store, returnId: Id, createReturn: (Return, seq<Option<LineItem>>) -> ShippingData,
                    createReturn2: (Return, seq<Option<LineItem>>) -> ShippingData)
    requires Fulfill(store, returnId, createReturn).Ok?
    requires Retrieve(store.returnRows, Some(returnId)).value.shippingMethod.Some?
    ensures Fulfill(Fulfill(store, returnId, createReturn).value.store, returnId, createReturn2) == Err(NotAllowed)
  {
    var o := Fulfill(store, returnId, createReturn).value;
    var found := Retrieve(store.returnRows, Some(returnId)).value;
    var k :| 0 <= k < |store.returnRows| && store.returnRows[k] == found;
    RetrieveAfterPut(store.returnRows, o.ret);
  }

  /* ---------- create ---------- */

  /** The created return has one item per requested line, in request order,
      whose quantity and requested quantity are the requested quantity, which
      is within the item's returnable quantity. */
  lemma CreateItemsFollowRequests(store: Store, env: Env, data: CreateReturnInput,
                                  refundTotal: (Order, seq<ResolvedLine>) -> real, newId: Id,
                                  shippingPrice: int, taxRates: seq<real>)
    requires Create(store, env, data, refundTotal, newId, shippingPrice, taxRates).Ok?
    ensures var ret := Create(store, env, data, refundTotal, newId, shippingPrice, taxRates).value.ret;
            var order := Reload(FindOrder(env.orders, data.orderId).value, store.lineItems);
            && ret.status == ReturnStatus.Requested
            && |ret.items| == |data.items|
            && forall i :: 0 <= i < |data.items| ==>
                 && ret.items[i].itemId == data.items[i].itemId
                 && ret.items[i].quantity == data.items[i].quantity
                 && ret.items[i].requestedQuantity == Some(data.items[i].quantity)
                 && ret.items[i].reasonId == data.items[i].reasonId
                 && ret.items[i].note == data.items[i].note
                 && LineAcceptable(Pool(order), data.items[i])
  {
    var order := Reload(FindOrder(env.orders, data.orderId).value, store.lineItems);
    assert CreateLines(store, env, data).Ok?;
    ValidatedLinesFollowRequests(order, data.items);
  }

  /** The refund `create` stores: a defined amount (null counting as 0) is
      floored and never above the refundable amount; an undefined one takes
      the computed total, floored, or, with a shipping method, reduced by the
      shipping total unfloored. */
  lemma CreateRefund(store: Store, env: Env, data: CreateReturnInput,
                     refundTotal: (Order, seq<ResolvedLine>) -> real, newId: Id,
                     shippingPrice: int, taxRates: seq<real>)
    requires Create(store, env, data, refundTotal, newId, shippingPrice, taxRates).Ok?
    ensures var ret := Create(store, env, data, refundTotal, newId, shippingPrice, taxRates).value.ret;
            var (order, lines) := CreateLines(store, env, data).value;
            && (!data.refundAmount.Unset? ==>
                  && ret.refundAmount == ExplicitValue(data.refundAmount).Floor as real
                  && ret.refundAmount <= order.refundableAmount as real)
            && (data.refundAmount.Unset? && !AttachesShipping(data) ==>
                  ret.refundAmount == refundTotal(order, lines).Floor as real)
            && (data.refundAmount.Unset? && AttachesShipping(data) ==>
                  ret.refundAmount + ShippingTotal(shippingPrice, taxRates) as real == refundTotal(order, lines))
  {
    var (order, lines) := CreateLines(store, env, data).value;
    var toRefund := InitialRefund(data.refundAmount, order.refundableAmount, refundTotal(order, lines));
    assert toRefund.Ok?;
  }

  /** When the first request that is not live names a stored item, the
      item checks fail with invalid data. */
  lemma FirstCanceledItemDecides(lineItems: map<Id, LineItem>, reqs: seq<ReturnRequest>, i: nat)
    requires i < |reqs|
    requires forall j :: 0 <= j < i ==> ItemLive(lineItems, reqs[j])
    requires reqs[i].itemId in lineItems && ParentCanceled(lineItems[reqs[i].itemId])
    ensures CheckItemsLive(lineItems, reqs) == Fail(InvalidData)
  {
    var c := CheckItemsLive(lineItems, reqs);
    assert !ItemLive(lineItems, reqs[i]);
    var w :| 0 <= w < |reqs| && !ItemLive(lineItems, reqs[w])
             && (forall j :: 0 <= j < w ==> ItemLive(lineItems, reqs[j]))
             && c.error == (if reqs[w].itemId in lineItems then InvalidData else NotFound);
  }

  /** Creating a return for an item of a canceled order fails with invalid
      data, provided the items before it exist and are live. */
  lemma CreateRejectsCanceledItem(store: Store, env: Env, data: CreateReturnInput,
                                  refundTotal: (Order, seq<ResolvedLine>) -> real, newId: Id,
                                  shippingPrice: int, taxRates: seq<real>, i: nat)
    requires i < |data.items|
    requires forall j :: 0 <= j < i ==> ItemLive(store.lineItems, data.items[j])
    requires data.items[i].itemId in store.lineItems
    requires ParentCanceled(store.lineItems[data.items[i].itemId])
    ensures Create(store, env, data, refundTotal, newId, shippingPrice, taxRates) == Err(InvalidData)
  {
    FirstCanceledItemDecides(store.lineItems, data.items, i);
  }

  /** Requesting more than an item's returnable quantity fails with "not
      allowed", when the requests before it validate. */
  lemma CreateRejectsOverReturn(store: Store, env: Env, data: CreateReturnInput,
                                refundTotal: (Order, seq<ResolvedLine>) -> real, newId: Id,
                                shippingPrice: int, taxRates: seq<real>, i: nat)
    requires forall j :: 0 <= j < |data.items| ==> ItemLive(store.lineItems, data.items[j])
    requires FindOrder(env.orders, data.orderId).Ok?
    requires i < |data.items|
    requires var pool := Pool(Reload(FindOrder(env.orders, data.orderId).value, store.lineItems));
             && (forall j :: 0 <= j < i ==> LineAcceptable(pool, data.items[j]))
             && FindById(pool, data.items[i].itemId).Some?
             && data.items[i].quantity > Returnable(FindById(pool, data.items[i].itemId).value)
    ensures Create(store, env, data, refundTotal, newId, shippingPrice, taxRates) == Err(NotAllowed)
  {
    var order := Reload(FindOrder(env.orders, data.orderId).value, store.lineItems);
    var pool := Pool(order);
    assert Apply(pool, data.items[i], ValidateReturnLineItem) == Err(NotAllowed);
    forall j | 0 <= j < i
      ensures Apply(pool, data.items[j], ValidateReturnLineItem).Ok?
    {
      assert LineAcceptable(pool, data.items[j]);
    }
    FirstFailureDecides(pool, data.items, ValidateReturnLineItem, i);
    assert GetFulfillmentItems(order, data.items, ValidateReturnLineItem) == Err(NotAllowed);
    assert CreateLines(store, env, data) == Err(NotAllowed);
  }

  /* ---------- receive ---------- */

  /** Whether a received line differs from what the return holds for its
      item: the item is not on the return, or its stored quantity differs. */
  predicate Mismatch(stored: seq<ReturnItem>, req: ReturnRequest) {
    var e := FindReturnItem(stored, req.itemId);
    e.None? || e.value.quantity != req.quantity
  }

  /** The received rows follow the received requests, in order. */
  lemma ReceiveLinesFollowRequests(store: Store, env: Env, returnId: Id, received: seq<ReturnRequest>,
                                   refundAmount: Option<real>, allowMismatch: bool, locationId: Option<Id>)
    ensures var r := Receive(store, env, returnId, received, refundAmount, allowMismatch, locationId);
            r.Ok? ==>
              var prior := Retrieve(store.returnRows, Some(returnId)).value;
              && |r.value.ret.items| == |received|
              && forall k :: 0 <= k < |received| ==>
                   && r.value.ret.items[k].itemId == received[k].itemId
                   && r.value.ret.items[k].quantity == received[k].quantity
                   && r.value.ret.items[k].receivedQuantity == Some(received[k].quantity)
                   && (r.value.ret.items[k].isRequested <==> !Mismatch(prior.items, received[k]))
  {
    var r := Receive(store, env, returnId, received, refundAmount, allowMismatch, locationId);
    if r.Ok? {
      var prior := Retrieve(store.returnRows, Some(returnId)).value;
      var order := ReceiveOrder(store, env, prior).value;
      ValidatedLinesFollowRequests(order, received);
    }
  }

  /** Rows that follow the received requests, each requested exactly when
      its request does not mismatch, get `requires_action` exactly when
      mismatches are not allowed and some request mismatches. */
  lemma StatusLaw(rows: seq<ReturnItem>, stored: seq<ReturnItem>, received: seq<ReturnRequest>, allowMismatch: bool)
    requires |rows| == |received|
    requires forall k :: 0 <= k < |received| ==> (rows[k].isRequested <==> !Mismatch(stored, received[k]))
    ensures ReceivedStatus(rows, allowMismatch) == ReturnStatus.RequiresAction <==>
              !allowMismatch && exists k :: 0 <= k < |received| && Mismatch(stored, received[k])
  {
    if exists k :: 0 <= k < |received| && Mismatch(stored, received[k]) {
      var k :| 0 <= k < |received| && Mismatch(stored, received[k]);
      assert !rows[k].isRequested;
    }
  }

  /** The status law of receive: `requires_action` exactly when mismatches
      are not allowed and some received line mismatches; `received`
      otherwise. A requested line that was not received is no mismatch. */
  lemma ReceiveStatus(store: Store, env: Env, returnId: Id, received: seq<ReturnRequest>,
                      refundAmount: Option<real>, allowMismatch: bool, locationId: Option<Id>)
    ensures var r := Receive(store, env, returnId, received, refundAmount, allowMismatch, locationId);
            r.Ok? ==>
              var prior := Retrieve(store.returnRows, Some(returnId)).value;
              && (r.value.ret.status == ReturnStatus.RequiresAction <==>
                    !allowMismatch && exists k :: 0 <= k < |received| && Mismatch(prior.items, received[k]))
              && (r.value.ret.status != ReturnStatus.RequiresAction ==> r.value.ret.status == ReturnStatus.Received)
  {
    var r := Receive(store, env, returnId, received, refundAmount, allowMismatch, locationId);
    if r.Ok? {
      var prior := Retrieve(store.returnRows, Some(returnId)).value;
      var ret := r.value.ret;
      ReceiveLinesFollowRequests(store, env, returnId, received, refundAmount, allowMismatch, locationId);
      StatusLaw(ret.items, prior.items, received, allowMismatch);
    }
  }

  /** Receiving fewer lines than were requested, each with the stored
      quantity, still yields `received`. */
  lemma PartialReceiptIsNoMismatch(store: Store, env: Env, returnId: Id, received: seq<ReturnRequest>,
                                   refundAmount: Option<real>, locationId: Option<Id>)
    requires Retrieve(store.returnRows, Some(returnId)).Ok?
    requires forall k :: 0 <= k < |received| ==>
               !Mismatch(Retrieve(store.returnRows, Some(returnId)).value.items, received[k])
    ensures var r := Receive(store, env, returnId, received, refundAmount, false, locationId);
            r.Ok? ==> r.value.ret.status == ReturnStatus.Received
  {
    ReceiveStatus(store, env, returnId, received, refundAmount, false, locationId);
  }

  /** Receive adds the STORED quantity of every item previously on the
      return to its line item's returned quantity, whatever was received. */
  lemma ReceiveCountsStoredQuantities(store: Store, env: Env, returnId: Id, received: seq<ReturnRequest>,
                                      refundAmount: Option<real>, allowMismatch: bool, locationId: Option<Id>,
                                      id: Id)
    requires id in store.lineItems
    ensures var r := Receive(store, env, returnId, received, refundAmount, allowMismatch, locationId);
            r.Ok? ==>
              var prior := Retrieve(store.returnRows, Some(returnId)).value;
              && id in r.value.store.lineItems
              && r.value.store.lineItems[id].returnedQuantity
                 == store.lineItems[id].returnedQuantity + QuantityFor(prior.items, id)
  {
    var r := Receive(store, env, returnId, received, refundAmount, allowMismatch, locationId);
    if r.Ok? {
      IncrementReturnedCounts(store.lineItems, Retrieve(store.returnRows, Some(returnId)).value.items);
    }
  }

  /** A second receive after one that ended in `requires_action` counts the
      returned quantities again: the stored quantities of the first receive's
      rows are added on top of those of the original rows. */
  lemma ReceiveTwiceCountsTwice(store: Store, env: Env, returnId: Id,
                                received: seq<ReturnRequest>, refundAmount: Option<real>, locationId: Option<Id>,
                                received2: seq<ReturnRequest>, refundAmount2: Option<real>,
                                allowMismatch2: bool, locationId2: Option<Id>, id: Id)
    requires id in store.lineItems
    ensures var r := Receive(store, env, returnId, received, refundAmount, false, locationId);
            r.Ok? && r.value.ret.status == ReturnStatus.RequiresAction ==>
              var first := r.value;
              var prior := Retrieve(store.returnRows, Some(returnId)).value;
              var second := Receive(first.store, env, returnId, received2, refundAmount2, allowMismatch2, locationId2);
              second.Ok? ==>
                && id in second.value.store.lineItems
                && second.value.store.lineItems[id].returnedQuantity
                   == store.lineItems[id].returnedQuantity + QuantityFor(prior.items, id) + QuantityFor(first.ret.items, id)
  {
    var r := Receive(store, env, returnId, received, refundAmount, false, locationId);
    if r.Ok? && r.value.ret.status == ReturnStatus.RequiresAction {
      var first := r.value;
      var prior := Retrieve(store.returnRows, Some(returnId)).value;
      var second := Receive(first.store, env, returnId, received2, refundAmount2, allowMismatch2, locationId2);
      if second.Ok? {
        var k :| 0 <= k < |store.returnRows| && store.returnRows[k] == prior;
        RetrieveAfterPut(store.returnRows, first.ret);
        assert Retrieve(first.store.returnRows, Some(returnId)).value == first.ret;
        ReceiveCountsStoredQuantities(store, env, returnId, received, refundAmount, false, locationId, id);
        ReceiveCountsStoredQuantities(first.store, env, returnId, received2, refundAmount2, allowMismatch2, locationId2, id);
      }
    }
  }

  /* Two units of item A bought, none returned, and a return asking for both. */
  const DemoItem := LineItem("A", 2, 0, None, map[], false, false, false)
  const DemoEnv := Env([Order("o", [DemoItem], [], [], FulfillmentStatus.Fulfilled, PaymentStatus.Captured, 1000)],
                       map[], [])
  const DemoReturn := Return("r", Some("o"), None, None, ReturnStatus.Requested,
                             [ReturnItem("A", 2, Some(2), None, true, None, None, map[])],
                             0.0, None, None, None, None, map[])
  const OneUnit := ReturnRequest("A", 1, None, None)

  /** The demo order, reloaded from the table, validates one unit of A. */
  lemma DemoValidation()
    ensures ReceiveOrder(Store([DemoReturn], map["A" := DemoItem]), DemoEnv, DemoReturn) == Ok(DemoEnv.orders[0])
    ensures GetFulfillmentItems(DemoEnv.orders[0], [OneUnit], ValidateReturnLineItem)
            == Ok([ResolvedLine(DemoItem.(quantity := 1), None, None)])
  {
    var order := DemoEnv.orders[0];
    assert Reload(order, map["A" := DemoItem]) == order;
    assert Pool(order) == [DemoItem];
    assert FindById([DemoItem], "A") == Some(DemoItem);
    SingleRequest(order, OneUnit, ValidateReturnLineItem);
  }

  /** Receiving the demo return counts both of its requested units. */
  lemma DemoCounting()
    ensures IncrementReturned(map["A" := DemoItem], DemoReturn.items) == Ok(map["A" := DemoItem.(returnedQuantity := 2)])
  {
    assert QuantityFor(DemoReturn.items, "A") == 2;
    var counted := IncrementReturned(map["A" := DemoItem], DemoReturn.items);
    IncrementReturnedCounts(map["A" := DemoItem], DemoReturn.items);
    assert counted.Ok? && counted.value.Keys == {"A"};
    var expected := map["A" := DemoItem.(returnedQuantity := 2)];
    assert counted.value["A"] == expected["A"];
    assert forall k :: k in counted.value <==> k in expected;
    assert counted.value == expected;
  }

  /** Receiving one unit of the demo return ends in `requires_action` and
      counts both requested units as returned. */
  lemma DemoFirstReceipt()
    ensures var first := Receive(Store([DemoReturn], map["A" := DemoItem]), DemoEnv, "r", [OneUnit], None, false, None);
            && first.Ok?
            && first.value.ret.status == ReturnStatus.RequiresAction
            && first.value.ret.(status := ReturnStatus.Requested, items := DemoReturn.items) == DemoReturn
            && first.value.store == Store([first.value.ret], map["A" := DemoItem.(returnedQuantity := 2)])
  {
    var store := Store([DemoReturn], map["A" := DemoItem]);
    assert Retrieve(store.returnRows, Some("r")) == Ok(DemoReturn);
    DemoValidation();
    DemoCounting();
    var line := ResolvedLine(DemoItem.(quantity := 1), None, None);
    var o := ApplyReceipt(store, DemoReturn, DemoEnv.orders[0], [line],
                          map["A" := DemoItem.(returnedQuantity := 2)], None, false, None);
    assert o.ret.items[0].isRequested == false;
    assert Put(store.returnRows, o.ret) == [o.ret];
  }

  /** Once the table counts both units as returned, receiving one more unit
      of the demo return is not allowed. */
  lemma DemoSecondReceipt(ret: Return)
    requires ret.id == "r" && ret.status == ReturnStatus.RequiresAction
    requires ret.orderId == Some("o") && ret.swapId.None?
    ensures Receive(Store([ret], map["A" := DemoItem.(returnedQuantity := 2)]), DemoEnv, "r", [OneUnit], None, false, None)
            == Err(NotAllowed)
  {
    var counted := DemoItem.(returnedQuantity := 2);
    var store := Store([ret], map["A" := counted]);
    var order := DemoEnv.orders[0];
    assert Retrieve(store.returnRows, Some("r")) == Ok(ret);
    assert Pool(Reload(order, store.lineItems)) == [counted];
    assert FindById([counted], "A") == Some(counted);
    assert Apply([counted], OneUnit, ValidateReturnLineItem) == Err(NotAllowed);
    SingleRequest(Reload(order, store.lineItems), OneUnit, ValidateReturnLineItem);
  }

  /** Returned quantities written by one receive are seen by the next: after
      the demo return's first receipt, a second receipt of one unit is not
      allowed, as nothing is left to return. */
  lemma SecondReceiveSeesFirst()
    ensures var first := Receive(Store([DemoReturn], map["A" := DemoItem]), DemoEnv, "r", [OneUnit], None, false, None);
            && first.Ok?
            && first.value.ret.status == ReturnStatus.RequiresAction
            && first.value.store.lineItems["A"].returnedQuantity == 2
            && Receive(first.value.store, DemoEnv, "r", [OneUnit], None, false, None) == Err(NotAllowed)
  {
    DemoFirstReceipt();
    var first := Receive(Store([DemoReturn], map["A" := DemoItem]), DemoEnv, "r", [OneUnit], None, false, None);
    DemoSecondReceipt(first.value.ret);
  }

  /** Receiving `req` restocks `e`: the requested item is one of the order's
      own items, it has a variant, and `e` increases that variant at
      `location` by the received quantity. */
  predicate Restocks(orderItems: seq<LineItem>, req: ReturnRequest, location: Option<Id>, e: Effect) {
    match FindById(orderItems, req.itemId)
    case Some(item) => Truthy(item.variantId) && e == AdjustInventory(item.variantId.value, location, req.quantity)
    case None => false
  }

  /** Rows that follow the received requests call for one restock per
      request that restocks, and for nothing else. */
  lemma AdjustmentsFollowRequests(orderItems: seq<LineItem>, rows: seq<ReturnItem>, received: seq<ReturnRequest>,
                                  location: Option<Id>)
    requires |rows| == |received|
    requires forall k :: 0 <= k < |received| ==>
               rows[k].itemId == received[k].itemId && rows[k].receivedQuantity == Some(received[k].quantity)
    ensures var effects := InventoryAdjustments(orderItems, rows, location);
            && (forall e :: e in effects ==> exists k :: 0 <= k < |received| && Restocks(orderItems, received[k], location, e))
            && (forall k, e :: 0 <= k < |received| && Restocks(orderItems, received[k], location, e) ==> e in effects)
            && (forall e :: multiset(effects)[e] ==
                  |set k: nat | k < |received| && Restocks(orderItems, received[k], location, e)|)
  {
    var effects := InventoryAdjustments(orderItems, rows, location);
    assert forall k, e :: 0 <= k < |received| ==>
      (AdjustmentFor(orderItems, rows[k], location) == Some(e) <==> Restocks(orderItems, received[k], location, e));
    forall e
      ensures multiset(effects)[e] == |set k: nat | k < |received| && Restocks(orderItems, received[k], location, e)|
    {
      InventoryAdjustmentsCount(orderItems, rows, location, e);
      assert AdjustingLines(orderItems, rows, location, e)
             == set k: nat | k < |received| && Restocks(orderItems, received[k], location, e);
    }
  }

  /** A successful receive increases inventory once for every received line
      whose item is one of the parent order's own items with a variant, at
      the return's resolved location and by the received quantity, and for
      nothing else: an item found only among a swap's or claim's additional
      items is never restocked. */
  lemma ReceiveRestocksOrderItems(store: Store, env: Env, returnId: Id, received: seq<ReturnRequest>,
                                  refundAmount: Option<real>, allowMismatch: bool, locationId: Option<Id>)
    ensures var r := Receive(store, env, returnId, received, refundAmount, allowMismatch, locationId);
            r.Ok? ==>
              var order := ReceiveOrder(store, env, Retrieve(store.returnRows, Some(returnId)).value).value;
              var location := r.value.ret.locationId;
              && (forall e :: e in r.value.effects ==>
                    exists k :: 0 <= k < |received| && Restocks(order.items, received[k], location, e))
              && (forall k, e :: 0 <= k < |received| && Restocks(order.items, received[k], location, e) ==>
                    e in r.value.effects)
              && (forall e :: multiset(r.value.effects)[e] ==
                    |set k: nat | k < |received| && Restocks(order.items, received[k], location, e)|)
  {
    var r := Receive(store, env, returnId, received, refundAmount, allowMismatch, locationId);
    if r.Ok? {
      var order := ReceiveOrder(store, env, Retrieve(store.returnRows, Some(returnId)).value).value;
      ReceiveLinesFollowRequests(store, env, returnId, received, refundAmount, allowMismatch, locationId);
      assert r.value.effects == InventoryAdjustments(order.items, r.value.ret.items, r.value.ret.locationId);
      AdjustmentsFollowRequests(order.items, r.value.ret.items, received, r.value.ret.locationId);
    }
  }

  /* ---------- scenarios ---------- */

  /** Returning two of an item bought five times, none returned yet, creates
      a requested return with one row of quantity and requested quantity two. */
  lemma CreateScenario()
    ensures var item := LineItem("A", 5, 0, None, map[], false, false, false);
            var order := Order("o", [item], [], [], FulfillmentStatus.Fulfilled, PaymentStatus.Captured, 1000);
            var data := CreateReturnInput(Some("o"), None, None, [ReturnRequest("A", 2, None, None)],
                                          Unset, None, None, None, map[]);
            var r := Create(Store([], map["A" := item]), Env([order], map[], []), data,
                            (o: Order, l: seq<ResolvedLine>) => 300.0, "ret_1", 0, []);
            && r.Ok?
            && r.value.ret.status == ReturnStatus.Requested
            && r.value.ret.refundAmount == 300.0
            && r.value.ret.items == [ReturnItem("A", 2, Some(2), None, true, None, None, map[])]
  {
    var item := LineItem("A", 5, 0, None, map[], false, false, false);
    var order := Order("o", [item], [], [], FulfillmentStatus.Fulfilled, PaymentStatus.Captured, 1000);
    var req := ReturnRequest("A", 2, None, None);
    var store := Store([], map["A" := item]);
    var env := Env([order], map[], []);
    var data := CreateReturnInput(Some("o"), None, None, [req], Unset, None, None, None, map[]);
    var line := ResolvedLine(item.(quantity := 2), None, None);
    assert Reload(order, store.lineItems) == order;
    assert Pool(order) == [item];
    assert FindById([item], "A") == Some(item);
    SingleRequest(order, req, ValidateReturnLineItem);
    assert CreateLines(store, env, data) == Ok((order, [line]));
    assert CheckItemsLive(store.lineItems, data.items).Pass?;
    assert !UsesReasonCategory(env.reasons, [line]);
    assert !RefundRejected(Unset, 1000);
  }
}
