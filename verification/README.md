# Return service model

A Dafny model of the return-processing service of a commerce backend
(`ReturnService` in `packages/medusa/src/services/return.ts`). A return is a
customer's request to send back purchased line items for a refund. The
service:

- reconciles the requested or received lines against the order's line items,
  including the additional items of its swaps and claims;
- checks whether an order can be returned at all;
- computes the refund, with an explicit-amount ceiling, flooring, and the
  shipping total subtracted;
- drives the return through `requested`, `received`, `requires_action` and
  `canceled` with `create`, `receive`, `fulfill`, `cancel` and `update`.

Each operation is a pure function. It returns either an error kind
(`NotFound`, `InvalidData`, `NotAllowed`) or an `Outcome`: the new store,
the return the call yields, and the collaborator calls it makes. An error
returns no store, which models the all-or-nothing transaction.

Orders, swaps, claims and return reasons are read-only. The line items of an
order are rows of the line-item table, and `receive` writes their returned
quantities. `create` and `receive` load the order afresh, so they read those
rows from the store (`LineItems.Reload`). Returnable quantities therefore
reflect every earlier receipt.

Modules:

- `Results`: Option, Result and Check, the error kinds, and JavaScript truthiness of optional strings.
- `Entities`: orders, line items, swaps and claims (`Amendment`), returns, return items, requests, the store and the read-only environment.
- `LineItems`: the item pool, `validateReturnLineItem` and `getFulfillmentItems`.
- `Eligibility`: `validateReturnStatuses`.
- `Refunds`: `Math.round`, the shipping total, the refund ceiling and the stored refund.
- `ReturnService`: retrieval, list defaults, and the five lifecycle operations.
- `ReturnProperties`: properties that span several calls, plus concrete scenarios.

JavaScript numbers used as money are exact `real`s. This covers an explicit
refund, the computed refund total, tax shares and the stored refund. Tax
rates are real percentages, and `Math.round(x)` is `floor(x + 0.5)`.
Quantities are `int`s.

## Model

| member | source | states |
|---|---|---|
| LineItems.FindById | packages/medusa/src/services/return.ts:128 | The first item whose id matches; none exactly when no item has the id. |
| LineItems.Pool | packages/medusa/src/services/return.ts:111-124 | The pool holds exactly the order's items and the additional items of its swaps and claims. |
| LineItems.Flatten | packages/medusa/src/services/return.ts:114-124 | An item is among the flattened items exactly when some swap or claim lists it. |
| LineItems.PoolLookupOrder | packages/medusa/src/services/return.ts:111-128 | A pool lookup tries order items, then swap items, then claim items, and takes the first match. |
| LineItems.FlattenReloaded | packages/medusa/src/services/return.ts:595-613 | Reloading the swaps or claims reloads their flattened additional items, element by element. |
| LineItems.ReloadedPool | packages/medusa/src/services/return.ts:595-613 | The pool of a reloaded order is the original pool with each item replaced by its stored row. |
| LineItems.FindByIdReloaded | packages/medusa/src/services/return.ts:595-613 | When every row is stored under its own id, a lookup in a reloaded list yields the stored row of the item the original lookup yields, and nothing when that finds nothing. |
| LineItems.ReloadedLookup | packages/medusa/src/services/return.ts:595-613 | A pool lookup in the reloaded order yields the stored row of the item found in the order as first loaded, so returnable quantities reflect earlier receipts. |
| LineItems.FindByIdConcat | packages/medusa/src/services/return.ts:128 | Looking up an id in a concatenation finds the left part's match if there is one. |
| LineItems.ValidateReturnLineItem | packages/medusa/src/services/return.ts:217-251 | A missing item fails with InvalidData. A quantity above quantity minus returned quantity fails with NotAllowed. Otherwise the result is the item with only its quantity replaced, carrying the request's reason and note. |
| LineItems.TransformEach | packages/medusa/src/services/return.ts:126-133 | Succeeds exactly when every request's transform succeeds, and otherwise reports the first failure in request order. The result is never longer than the requests, and a falsy output makes it shorter. |
| LineItems.TransformEachOutputs | packages/medusa/src/services/return.ts:126-133 | Every output of a successful mapping is the transformed value of some request. |
| LineItems.TransformEachKeepsAll | packages/medusa/src/services/return.ts:126-133 | When every request yields a value, the mapping succeeds, nothing is dropped, and the i-th output is the i-th request's value. |
| LineItems.GetFulfillmentItems | packages/medusa/src/services/return.ts:101-134 | The same success, error and order guarantees, with every request looked up in the order's pool. Every output comes from some request, and with no falsy output the i-th output is the i-th request's. |
| LineItems.ValidatedLinesFollowRequests | packages/medusa/src/services/return.ts:126-133 | With the line validator as transformer, nothing is dropped. Success holds exactly when every request names a pool item with enough returnable quantity. The i-th line is then the i-th request's item at the requested quantity. |
| LineItems.ValidationErrorKinds | packages/medusa/src/services/return.ts:222-235 | A failure names a rejected request; the error is InvalidData exactly when that request's item is not in the pool. |
| LineItems.SingleRequest | packages/medusa/src/services/return.ts:126-133 | Mapping one request yields that request's error, or a list holding its value, or the empty list for a falsy output. |
| Eligibility.ValidateReturnStatuses | packages/medusa/src/services/return.ts:187-204 | Passes exactly when the fulfillment status is one of the seven other than not_fulfilled and returned, and payment is captured. Otherwise NotAllowed. |
| Refunds.JsRound | packages/medusa/src/services/return.ts:476 | The result lies within half a unit of x, and halves round up. |
| Refunds.TaxSumNearExact | packages/medusa/src/services/return.ts:472-478 | Rounding each tax line drifts from the exact tax by at most half a unit per line. |
| Refunds.ShippingTotalAtLeastPrice | packages/medusa/src/services/return.ts:472-478 | With a non-negative price and rates, the shipping total is at least the price. |
| Refunds.InitialRefund | packages/medusa/src/services/return.ts:398-413 | Fails with InvalidData exactly when a defined amount exceeds the refundable amount. A null amount counts as 0, and an explicit amount is taken as given. An undefined amount takes the computed total unchecked. |
| Refunds.FinalRefund | packages/medusa/src/services/return.ts:418-483 | The floored starting refund. With shipping and an undefined amount, the stored refund plus the shipping total equals the starting refund, unfloored. |
| Refunds.NullRefundActsAsZero | packages/medusa/src/services/return.ts:399-421 | A null refund_amount gives the same ceiling check and stored refund as an explicit 0, so shipping is not subtracted for it (line 480). |
| Refunds.ExplicitRefundWithinCeiling | packages/medusa/src/services/return.ts:398-409 | An accepted defined amount yields a stored refund at most the refundable amount, with or without shipping. |
| Refunds.ComputedRefundUnchecked | packages/medusa/src/services/return.ts:410-413 | A computed refund above the refundable amount is accepted. |
| Refunds.RefundCanGoNegative | packages/medusa/src/services/return.ts:481 | A computed refund of 10 with shipping 50 at 10% is stored as -45. |
| Refunds.ShippingScenario | packages/medusa/src/services/return.ts:472-482 | Shipping priced 50 at 10% totals 55, and a computed 300 becomes 245. With refund_amount null, 0 is stored and shipping is not subtracted. |
| ReturnService.Retrieve | packages/medusa/src/services/return.ts:259-285 | NotFound exactly when the id is undefined or no return has it; otherwise a stored return with that id. |
| ReturnService.RetrieveBySwap | packages/medusa/src/services/return.ts:287-310 | NotFound exactly when no return belongs to the swap; otherwise the first one that does. |
| ReturnService.RetrieveAfterPut | packages/medusa/src/services/return.ts:176 | A saved return is what a later retrieve by its id yields. |
| ReturnService.ListConfig | packages/medusa/src/services/return.ts:141-148 | Without a config: skip 0, take 50, created_at descending. A given config is used unchanged. |
| ReturnService.Cancel | packages/medusa/src/services/return.ts:161-178 | A missing return is NotFound, and a received one is NotAllowed. Any other return becomes canceled and keeps every other field; only that row changes. |
| ReturnService.Update | packages/medusa/src/services/return.ts:312-336 | A missing return is NotFound, and a canceled one is NotAllowed. Supplied metadata goes through the merge policy and other supplied fields overwrite. Unsupplied fields and all other fields stay. |
| ReturnService.CheckItemsLive | packages/medusa/src/services/return.ts:355-372 | Passes exactly when every requested item exists and its order, swap and claim are not canceled. The first offending item decides the error: NotFound when missing, InvalidData when canceled. |
| ReturnService.FindOrder | packages/medusa/src/services/return.ts:374-390 | NotFound exactly when the id is undefined or unknown; otherwise an order with that id. |
| ReturnService.Assemble | packages/medusa/src/services/return.ts:418-484 | The new return is requested with one row per line. Swap id, claim order id, location, no_notification and metadata are copied from the request, and the order id is dropped when a swap id is given. The shipping method and its effect appear exactly when an option id is given. The new row is appended to the store. |
| ReturnService.Create | packages/medusa/src/services/return.ts:346-487 | Item checks fail first, then the order lookup and line validation against the order's reloaded items. After those, InvalidData occurs exactly when a defined amount exceeds the refundable amount or a reason category is used. Otherwise create succeeds with the assembled return. |
| ReturnService.Fulfill | packages/medusa/src/services/return.ts:490-551 | A missing return is NotFound. A stored one fails exactly when it is canceled or already has shipping data, and then with NotAllowed. With no shipping method, everything is unchanged. Otherwise only shipping_data is set, to the provider's result. |
| ReturnService.FindReturnItem | packages/medusa/src/services/return.ts:629 | The first stored row for the item; none exactly when no row names it. |
| ReturnService.ReconcileLine | packages/medusa/src/services/return.ts:628-648 | A received row keeps a known row's fields and records the stored quantity as requested. is_requested holds exactly when the received quantity equals the stored one. A new row is never requested. |
| ReturnService.ReceivedStatus | packages/medusa/src/services/return.ts:650-655 | requires_action exactly when mismatches are not allowed and some received row is not requested; otherwise received. |
| ReturnService.IncrementReturned | packages/medusa/src/services/return.ts:671-678 | Fails with NotFound exactly when some row's item is not stored, and keeps the table's keys otherwise. |
| ReturnService.IncrementReturnedCounts | packages/medusa/src/services/return.ts:671-678 | Each line item's returned quantity grows by the sum of the stored quantities of its rows, and nothing else changes. |
| ReturnService.InventoryAdjustments | packages/medusa/src/services/return.ts:680-692 | Every effect is the increase some row calls for, every row whose order item has a variant yields its increase, and there are never more effects than rows. |
| ReturnService.InventoryAdjustmentsCount | packages/medusa/src/services/return.ts:683-691 | One increase per row: each increase occurs exactly as often as there are rows calling for it, so two rows with the same variant and quantity restock twice. |
| ReturnService.ApplyReceipt | packages/medusa/src/services/return.ts:628-678 | The rows are the reconciled lines and the status follows the mismatch law. Refund is the argument or the prior value, and location the truthy argument or the prior value. The rest of the return is unchanged. The table holds the raised returned quantities, and inventory effects follow the rows. |
| ReturnService.Receive | packages/medusa/src/services/return.ts:568-696 | Succeeds exactly when the return is requested or requires action, its parent order exists, the received lines validate against the order's reloaded items, and every prior row's item is stored. A missing return fails with NotFound, and a canceled one with NotAllowed. A missing parent order fails with NotFound, and only then does an already received return fail with NotAllowed. A rejected line fails with its validation error, and an unstored prior item fails with NotFound. Success writes what ApplyReceipt states. |
| ReturnProperties.CancelIdempotent | packages/medusa/src/services/return.ts:161-178 | Canceling twice equals canceling once. |
| ReturnProperties.CanceledReturnIsFrozen | packages/medusa/src/services/return.ts:503-508 | A canceled return cannot be received, fulfilled or updated (NotAllowed). Canceling it again keeps it as it is. |
| ReturnProperties.ReceivedReturnIsFinal | packages/medusa/src/services/return.ts:615-620 | After any receive that ends in received, whatever its options, cancel is NotAllowed and a new receive is NotAllowed. |
| ReturnProperties.FulfillOnce | packages/medusa/src/services/return.ts:534-539 | After a fulfillment with a shipping method, a second fulfill is NotAllowed. |
| ReturnProperties.CreateItemsFollowRequests | packages/medusa/src/services/return.ts:439-448 | The created return is requested, with one row per request in order. Each row's quantity and requested quantity equal the request's quantity, which is within its returnable quantity. |
| ReturnProperties.FirstCanceledItemDecides | packages/medusa/src/services/return.ts:355-372 | When the first request that is not live names a stored item, the item checks fail with InvalidData. |
| ReturnProperties.CreateRefund | packages/medusa/src/services/return.ts:398-483 | A defined amount, with null as 0, is stored floored and at most the refundable amount. An undefined amount stores the computed total floored, or reduced by the shipping total when shipping is attached. |
| ReturnProperties.CreateRejectsCanceledItem | packages/medusa/src/services/return.ts:355-372 | An item of a canceled order, swap or claim, after live items, makes create fail with InvalidData. |
| LineItems.FirstFailureDecides | packages/medusa/src/services/return.ts:126-131 | When a request fails and every earlier one succeeds, that request's error is the error of the whole mapping. |
| ReturnProperties.CreateRejectsOverReturn | packages/medusa/src/services/return.ts:229-235 | A request over the returnable quantity, after valid requests, makes create fail with NotAllowed. |
| ReturnProperties.ReceiveLinesFollowRequests | packages/medusa/src/services/return.ts:628-648 | Received rows follow the received requests in order. A row is requested exactly when the item was on the return with the same stored quantity. |
| ReturnProperties.StatusLaw | packages/medusa/src/services/return.ts:650-655 | Rows that follow the requests get requires_action exactly when mismatches are not allowed and some request mismatches. |
| ReturnProperties.ReceiveStatus | packages/medusa/src/services/return.ts:650-655 | requires_action exactly when mismatches are not allowed and some received request mismatches; otherwise received. |
| ReturnProperties.PartialReceiptIsNoMismatch | packages/medusa/src/services/return.ts:652 | Receiving only some requested lines, each at its stored quantity, yields received. |
| ReturnProperties.ReceiveCountsStoredQuantities | packages/medusa/src/services/return.ts:672-677 | Returned quantities grow by the prior rows' stored quantities, not by what was received. |
| ReturnProperties.ReceiveTwiceCountsTwice | packages/medusa/src/services/return.ts:672-677 | A second receive after requires_action adds quantities again, on top of the first receive's. |
| ReturnProperties.DemoFirstReceipt | packages/medusa/src/services/return.ts:595-677 | Two units bought and both requested: receiving one ends in requires_action and records both as returned. |
| ReturnProperties.DemoSecondReceipt | packages/medusa/src/services/return.ts:229-235 | With both units recorded as returned, receiving one more is NotAllowed. |
| ReturnProperties.SecondReceiveSeesFirst | packages/medusa/src/services/return.ts:595-677 | A second receive sees the returned quantities the first one wrote, so it is rejected. |
| ReturnProperties.AdjustmentsFollowRequests | packages/medusa/src/services/return.ts:683-691 | For rows that follow the received requests, the effects are exactly the restocks the requests call for, counted once per request. |
| ReturnProperties.ReceiveRestocksOrderItems | packages/medusa/src/services/return.ts:680-692 | After a successful receive, each effect increases the variant of some received request's item in the parent order's own items. The increase is at the return's resolved location and by the received quantity. Every such request yields its increase, once per request. An item found only among swap or claim additional items is never restocked. |
| ReturnProperties.CreateScenario | packages/medusa/src/services/return.ts:439-448 | Returning two of five units creates a requested return with one row: quantity 2, requested 2. |

## Behaviour kept as the code has it

- The refundable ceiling only applies to a defined `refund_amount`. A null amount counts as an explicit 0, and shipping is then not subtracted. A computed refund is never checked, and subtracting shipping can make it negative.
- `receive` only judges the lines it received. A requested line that is absent from the received lines is not a mismatch.
- `receive` adds the stored quantity of each row the return held before the call to the line item's returned quantity. It does not add the received quantity. A second receive after `requires_action` counts again, and it validates against the raised count, so it can be rejected for lack of returnable quantity.
- `receive` overwrites a known row's requested quantity with its stored quantity. On a second receive, this is the quantity received the first time.
- Inventory is restocked only for rows whose item is one of the order's own items. Additional items of swaps and claims are never restocked.
- Cancel accepts a return that is already canceled.
- `validateReturnStatuses` is not called by any operation of this service.

## Left out

- The other files of the repository are DTO declarations, data-fetching hooks, REST wrappers, dependency-injection loading, typings and an ORM test; none holds return logic.
- Refunds.InitialRefund: `isDefined` comes from medusa-core-utils and is not part of this model. It is taken to be `typeof val !== "undefined"`, so a null `refund_amount` is an explicit amount. JavaScript coerces it to 0, both in the ceiling check and in `Math.floor`.
- TypeORM persistence and transactions: an error returns no store, and `save` replaces every row with the saved id. A return's rows are replaced wholesale by `receive`.
- Repository queries, `buildQuery`, `select`/`relations` and the `config` of `retrieve`: `list` is modelled only through its default configuration.
- Collaborators whose code is not part of this model are parameters: the refund total, the tax lines' rates, the created shipping method's price, the fulfillment provider's `createReturn`, `setMetadata` and the new return's id. The calculation context and tax-line creation are folded into the rates.
- Floating-point rounding error: money is exact `real`s.
- The `received_at` timestamp and the `return_id` of received rows.
- The concurrent read-modify-write race on `returned_quantity`.
- `validateReturnLineItem`'s default `quantity = 0` and `additional = {}`: every request carries a quantity. A present-but-undefined `reason_id` or `note` is treated as absent.
- A null `returned_quantity` is modelled as 0. A new create row's `is_requested` is taken as true, the column default, since the entity declaration is not part of this model.
- `UpdateReturnInput` is not part of this model. The patch covers `no_notification`, `location_id`, `refund_amount` and `metadata`.
- `create` also records the created shipping method on the returned return, so that a later `fulfill` sees it.
- LineItems.GetFulfillmentItems: when the transformer drops outputs, the contract states membership and a length bound, not the exact subsequence.
- LineItems.TransformEach: the same gap; its output guarantees are stated by TransformEachOutputs and TransformEachKeepsAll.
- ReturnService.InventoryAdjustments: states membership in both directions, a length bound and (through InventoryAdjustmentsCount) the count of each effect, but not the order of the effects.
