/** Whether an order is in a state that allows a return. */
module Eligibility {
  import opened Results
  import opened Entities

  /** The fulfillment statuses that allow a return. */
  function PassingFulfillment(): set<FulfillmentStatus> {
    {FulfillmentStatus.PartiallyFulfilled, FulfillmentStatus.Fulfilled,
     FulfillmentStatus.PartiallyShipped, FulfillmentStatus.Shipped,
     FulfillmentStatus.PartiallyReturned, FulfillmentStatus.Canceled,
     FulfillmentStatus.RequiresAction}
  }

  /** validateReturnStatuses: an order whose items were never fulfilled, or
      that was already returned, cannot be returned, and neither can an order
      whose payment has not been captured. Every other fulfillment status,
      including a canceled fulfillment, passes. */
  function ValidateReturnStatuses(order: Order): (r: Check)
    ensures r.Pass? <==>
              && order.fulfillmentStatus in PassingFulfillment()
              && order.paymentStatus == PaymentStatus.Captured
    ensures r.Fail? ==> r.error == NotAllowed
  {
    match order.fulfillmentStatus
    case NotFulfilled => Fail(NotAllowed)
    case Returned => Fail(NotAllowed)
    case _ => if order.paymentStatus != PaymentStatus.Captured then Fail(NotAllowed) else Pass
  }
}
