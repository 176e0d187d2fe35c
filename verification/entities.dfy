/** The entities the return service reads and writes, as immutable records.

Field names follow the TypeORM models in camel case. Nullable columns and
optional input fields are `Option`s; JavaScript numbers that the service only
compares or counts are `int`, and money amounts that may carry a fraction
(an explicit refund, a computed refund total, a tax share) are `real`.
 */
module Entities {
  import opened Results

  type Id = string
  type Metadata = map<string, string>

  datatype FulfillmentStatus =
    | NotFulfilled | PartiallyFulfilled | Fulfilled | PartiallyShipped | Shipped
    | PartiallyReturned | Returned | Canceled | RequiresAction

  datatype PaymentStatus =
    | NotPaid | Awaiting | Captured | PartiallyRefunded | Refunded | Canceled | RequiresAction

  /** The lifecycle of a return. */
  datatype ReturnStatus = Requested | Received | RequiresAction | Canceled

  /** An order line item, together with whether its order, swap or claim has
      `canceled_at` set (the relations `create` loads with the item). */
  datatype LineItem = LineItem(
    id: Id,
    quantity: int,
    returnedQuantity: int,
    variantId: Option<Id>,
    metadata: Metadata,
    orderCanceled: bool,
    swapCanceled: bool,
    claimCanceled: bool)

  /** A swap or a claim: an amendment of an order that adds line items. */
  datatype Amendment = Amendment(id: Id, additionalItems: seq<LineItem>)

  datatype Order = Order(
    id: Id,
    items: seq<LineItem>,
    swaps: seq<Amendment>,
    claims: seq<Amendment>,
    fulfillmentStatus: FulfillmentStatus,
    paymentStatus: PaymentStatus,
    refundableAmount: int)

  /** One requested or received line of a return request (OrdersReturnItem);
      `reasonId` and `note` are None when the key is absent. */
  datatype ReturnRequest = ReturnRequest(
    itemId: Id,
    quantity: int,
    reasonId: Option<Id>,
    note: Option<string>)

  /** What validateReturnLineItem produces: the pool's line item with its
      quantity replaced by the requested one, plus reason and note. */
  datatype ResolvedLine = ResolvedLine(line: LineItem, reasonId: Option<Id>, note: Option<string>)

  datatype ReturnItem = ReturnItem(
    itemId: Id,
    quantity: int,
    requestedQuantity: Option<int>,
    receivedQuantity: Option<int>,
    isRequested: bool,
    reasonId: Option<Id>,
    note: Option<string>,
    metadata: Metadata)

  datatype ShippingMethod = ShippingMethod(optionId: Id, price: int)

  /** The opaque payload a fulfillment provider returns for a return shipment. */
  datatype ShippingData = ShippingData(fields: Metadata)

  datatype Return = Return(
    id: Id,
    orderId: Option<Id>,
    swapId: Option<Id>,
    claimOrderId: Option<Id>,
    status: ReturnStatus,
    items: seq<ReturnItem>,
    refundAmount: real,
    shippingMethod: Option<ShippingMethod>,
    shippingData: Option<ShippingData>,
    locationId: Option<Id>,
    noNotification: Option<bool>,
    metadata: Metadata)

  /** A return reason; a reason with children is a category. */
  datatype ReturnReason = ReturnReason(id: Id, children: seq<Id>)

  /** The rows the return service writes: returns (searched with findOne, so
      the first match wins) and line items keyed by their primary key. */
  datatype Store = Store(returnRows: seq<Return>, lineItems: map<Id, LineItem>)

  /** What the return service only reads: orders with their swaps and
      claims, the order each swap belongs to, and the return reasons. The
      line items listed here are the rows as first created; a lookup reloads
      them from the store's line-item table (LineItems.Reload). */
  datatype Env = Env(orders: seq<Order>, swapOrders: map<Id, Id>, reasons: seq<ReturnReason>)

  /** Calls into collaborators whose effect is outside the store. */
  datatype Effect =
    | CreateShippingMethod(optionId: Id, price: Option<int>, returnId: Id)
    | AdjustInventory(variantId: Id, locationId: Option<Id>, quantity: int)

  /** A successful operation: the new store, the return it yields, and the effects. */
  datatype Outcome = Outcome(store: Store, ret: Return, effects: seq<Effect>)

  /** `refund_amount` of a create request: absent, explicitly null, or a number. */
  datatype RefundInput = Unset | Null | Amount(value: real)

  datatype ShippingMethodInput = ShippingMethodInput(optionId: Id, price: Option<int>)

  datatype CreateReturnInput = CreateReturnInput(
    orderId: Option<Id>,
    swapId: Option<Id>,
    claimOrderId: Option<Id>,
    items: seq<ReturnRequest>,
    refundAmount: RefundInput,
    shippingMethod: Option<ShippingMethodInput>,
    locationId: Option<Id>,
    noNotification: Option<bool>,
    metadata: Metadata)

  /** The fields an update may supply; None means "not supplied". */
  datatype ReturnPatch = ReturnPatch(
    noNotification: Option<bool>,
    locationId: Option<Id>,
    refundAmount: Option<real>,
    metadata: Option<Metadata>)

  datatype Direction = Asc | Desc

  /** The paging and ordering part of a find configuration. */
  datatype FindConfig = FindConfig(skip: Option<int>, take: Option<int>, order: map<string, Direction>)
}
