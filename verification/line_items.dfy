/** Line reconciliation: the pool of returnable line items of an order, the
    per-line validation, and the mapping of requested lines onto the pool. */
module LineItems {
  import opened Results
  import opened Entities

  /* ---------- sequence helpers ---------- */

  /** Index of the first element of `xs` satisfying `p` (Array.prototype.findIndex). */
  function FirstWhere<T>(xs: seq<T>, p: T -> bool): (r: Option<nat>)
    ensures r.Some? ==> r.value < |xs| && p(xs[r.value])
    ensures r.Some? ==> forall j :: 0 <= j < r.value ==> !p(xs[j])
    ensures r.None? ==> forall j :: 0 <= j < |xs| ==> !p(xs[j])
    decreases |xs|
  {
    if |xs| == 0 then None
    else if p(xs[0]) then Some(0)
    else
      match FirstWhere(xs[1..], p)
      case None => None
      case Some(k) => Some(k + 1)
  }

  /** Searching a concatenation searches the left part first. */
  lemma {:induction false} FirstWhereConcat<T>(a: seq<T>, b: seq<T>, p: T -> bool)
    ensures FirstWhere(a + b, p) ==
              match FirstWhere(a, p)
              case Some(k) => Some(k)
              case None => (match FirstWhere(b, p)
                            case Some(k) => Some(|a| + k)
                            case None => None)
    decreases |a|
  {
    if |a| == 0 {
      assert a + b == b;
    } else {
      assert (a + b)[1..] == a[1..] + b;
      FirstWhereConcat(a[1..], b, p);
    }
  }

  /** The positions of `s` whose element satisfies `p`. */
  function Indices<T>(s: seq<T>, p: T -> bool): set<nat> {
    set k: nat | k < |s| && p(s[k])
  }

  /** Every index of `s` moved one position on. */
  function Shift(s: set<nat>): set<nat> {
    set k | k in s :: k + 1
  }

  /** Shifting a set of indices by one keeps its size. */
  lemma {:induction false} ShiftedSize(s: set<nat>)
    ensures |Shift(s)| == |s|
    decreases |s|
  {
    if s != {} {
      var x :| x in s;
      ShiftedSize(s - {x});
      forall y | y in Shift(s)
        ensures y in Shift(s - {x}) + {x + 1}
      {
        var k :| k in s && y == k + 1;
        if k != x {
          assert k in s - {x};
        }
      }
      assert Shift(s) == Shift(s - {x}) + {x + 1};
      assert x + 1 !in Shift(s - {x});
    }
  }

  /** The positions satisfying `p` are the first one when it does, plus the
      rest's positions shifted by one. */
  lemma IndicesSplit<T>(s: seq<T>, p: T -> bool)
    requires |s| > 0
    ensures |Indices(s, p)| == (if p(s[0]) then 1 else 0) + |Indices(s[1..], p)|
  {
    var tail := Indices(s[1..], p);
    ShiftedSize(tail);
    forall k: nat | k in Indices(s, p) && k > 0
      ensures k in Shift(tail)
    {
      assert s[1..][k - 1] == s[k];
      assert k - 1 in tail;
    }
    forall j | j in tail
      ensures j + 1 in Indices(s, p)
    {
      assert s[1..][j] == s[j + 1];
    }
    assert 0 !in Shift(tail);
    if p(s[0]) {
      assert Indices(s, p) == Shift(tail) + {0};
    } else {
      assert Indices(s, p) == Shift(tail);
    }
  }

  /* ---------- lookup in the pool ---------- */

  /** The first line item with id `id` (Array.prototype.find on `i.id === id`). */
  function FindById(items: seq<LineItem>, id: Id): (r: Option<LineItem>)
    ensures r.Some? ==> r.value in items && r.value.id == id
    ensures r.None? <==> forall k :: 0 <= k < |items| ==> items[k].id != id
    ensures r.Some? ==> exists k :: 0 <= k < |items| && items[k] == r.value
                                    && forall j :: 0 <= j < k ==> items[j].id != id
  {
    match FirstWhere(items, (x: LineItem) => x.id == id)
    case None => None
    case Some(k) => Some(items[k])
  }

  lemma FindByIdConcat(a: seq<LineItem>, b: seq<LineItem>, id: Id)
    ensures FindById(a + b, id) == if FindById(a, id).Some? then FindById(a, id) else FindById(b, id)
  {
    FirstWhereConcat(a, b, (x: LineItem) => x.id == id);
  }

  /** All additional items of a list of swaps or claims, in order. */
  function Flatten(amendments: seq<Amendment>): (r: seq<LineItem>)
    ensures forall x :: x in r <==> exists a :: a in amendments && x in a.additionalItems
    decreases |amendments|
  {
    if |amendments| == 0 then []
    else
      var rest := Flatten(amendments[1..]);
      assert forall a :: a in amendments <==> a == amendments[0] || a in amendments[1..];
      amendments[0].additionalItems + rest
  }

  /** The items a return may refer to: the order's own items, then the
      additional items of its swaps, then those of its claims. */
  function Pool(order: Order): (pool: seq<LineItem>)
    ensures forall x :: x in pool <==>
              || x in order.items
              || (exists s :: s in order.swaps && x in s.additionalItems)
              || (exists c :: c in order.claims && x in c.additionalItems)
  {
    order.items + Flatten(order.swaps) + Flatten(order.claims)
  }

  /** A lookup in the pool tries the order's items, then the swaps' additional
      items, then the claims' additional items, and takes the first id match. */
  lemma PoolLookupOrder(order: Order, id: Id)
    ensures FindById(Pool(order), id) ==
              if FindById(order.items, id).Some? then FindById(order.items, id)
              else if FindById(Flatten(order.swaps), id).Some? then FindById(Flatten(order.swaps), id)
              else FindById(Flatten(order.claims), id)
  {
    FindByIdConcat(order.items + Flatten(order.swaps), Flatten(order.claims), id);
    FindByIdConcat(order.items, Flatten(order.swaps), id);
  }

  /** Whether every row of the line-item table is stored under its own id. */
  predicate WellKeyed(lineItems: map<Id, LineItem>) {
    forall id :: id in lineItems ==> lineItems[id].id == id
  }

  /** An item as the line-item table now holds it: the stored row for its
      id, or the item itself when the table has no such row. */
  function Stored(lineItems: map<Id, LineItem>, x: LineItem): LineItem {
    if x.id in lineItems then lineItems[x.id] else x
  }

  /** Every item of a list, as the line-item table now holds it. */
  function ReloadItems(lineItems: map<Id, LineItem>, xs: seq<LineItem>): (r: seq<LineItem>)
    ensures |r| == |xs| && forall k :: 0 <= k < |xs| ==> r[k] == Stored(lineItems, xs[k])
  {
    seq(|xs|, k requires 0 <= k < |xs| => Stored(lineItems, xs[k]))
  }

  function ReloadAmendments(lineItems: map<Id, LineItem>, amendments: seq<Amendment>): (r: seq<Amendment>)
    ensures |r| == |amendments|
    ensures forall k :: 0 <= k < |amendments| ==>
              r[k] == amendments[k].(additionalItems := ReloadItems(lineItems, amendments[k].additionalItems))
  {
    seq(|amendments|, k requires 0 <= k < |amendments| =>
      amendments[k].(additionalItems := ReloadItems(lineItems, amendments[k].additionalItems)))
  }

  /** An order as orderService.retrieve loads it: its items and the
      additional items of its swaps and claims are rows of the line-item
      table, so they carry the returned quantities written since. */
  function Reload(order: Order, lineItems: map<Id, LineItem>): Order {
    order.(items := ReloadItems(lineItems, order.items),
           swaps := ReloadAmendments(lineItems, order.swaps),
           claims := ReloadAmendments(lineItems, order.claims))
  }

  lemma {:induction false} FlattenReloaded(lineItems: map<Id, LineItem>, amendments: seq<Amendment>)
    ensures Flatten(ReloadAmendments(lineItems, amendments)) == ReloadItems(lineItems, Flatten(amendments))
    decreases |amendments|
  {
    if |amendments| > 0 {
      var a := ReloadAmendments(lineItems, amendments);
      assert a[1..] == ReloadAmendments(lineItems, amendments[1..]);
      FlattenReloaded(lineItems, amendments[1..]);
      assert ReloadItems(lineItems, Flatten(amendments))
             == ReloadItems(lineItems, amendments[0].additionalItems) + ReloadItems(lineItems, Flatten(amendments[1..]));
    }
  }

  /** Reloading an order reloads its pool, element by element. */
  lemma ReloadedPool(order: Order, lineItems: map<Id, LineItem>)
    ensures Pool(Reload(order, lineItems)) == ReloadItems(lineItems, Pool(order))
  {
    FlattenReloaded(lineItems, order.swaps);
    FlattenReloaded(lineItems, order.claims);
  }

  /** With every row stored under its own id, a lookup in a reloaded list
      finds the stored row of the item the original list would find. */
  lemma FindByIdReloaded(lineItems: map<Id, LineItem>, xs: seq<LineItem>, id: Id)
    requires WellKeyed(lineItems)
    ensures FindById(ReloadItems(lineItems, xs), id) ==
              if FindById(xs, id).None? then None else Some(Stored(lineItems, FindById(xs, id).value))
  {
    var ys := ReloadItems(lineItems, xs);
    assert forall k :: 0 <= k < |xs| ==> ys[k].id == xs[k].id;
    var a := FindById(xs, id);
    var b := FindById(ys, id);
    if a.Some? {
      var k :| 0 <= k < |xs| && xs[k] == a.value && forall j :: 0 <= j < k ==> xs[j].id != id;
      var m :| 0 <= m < |ys| && ys[m] == b.value && forall j :: 0 <= j < m ==> ys[j].id != id;
      assert ys[k].id == id;
      assert m == k;
    }
  }

  /** A lookup in a reloaded order's pool finds the stored row of the item
      a lookup in the order as first loaded finds. */
  lemma ReloadedLookup(order: Order, lineItems: map<Id, LineItem>, id: Id)
    requires WellKeyed(lineItems)
    ensures FindById(Pool(Reload(order, lineItems)), id) ==
              if FindById(Pool(order), id).None? then None
              else Some(Stored(lineItems, FindById(Pool(order), id).value))
  {
    ReloadedPool(order, lineItems);
    FindByIdReloaded(lineItems, Pool(order), id);
  }

  /** The quantity of an item that has not been returned yet. */
  function Returnable(item: LineItem): int {
    item.quantity - item.returnedQuantity
  }

  /** validateReturnLineItem: the item must exist and have at least the
      requested quantity left to return; the result is the item with the
      requested quantity, carrying the request's reason and note. */
  function ValidateReturnLineItem(item: Option<LineItem>, req: ReturnRequest): (r: Result<Option<ResolvedLine>>)
    ensures item.None? ==> r == Err(InvalidData)
    ensures item.Some? ==> (r.Err? <==> req.quantity > Returnable(item.value))
    ensures item.Some? && r.Err? ==> r.error == NotAllowed
    ensures r.Ok? ==> r.value.Some?
    ensures r.Ok? ==> var out := r.value.value;
                      && out.line.quantity == req.quantity
                      && out.line.(quantity := item.value.quantity) == item.value
                      && out.reasonId == req.reasonId
                      && out.note == req.note
  {
    match item
    case None => Err(InvalidData)
    case Some(it) =>
      if req.quantity > it.quantity - it.returnedQuantity then Err(NotAllowed)
      else Ok(Some(ResolvedLine(it.(quantity := req.quantity), req.reasonId, req.note)))
  }

  /** The transformer's outcome for one request: the first pool item with the
      requested id (or none), transformed. */
  function Apply<T>(pool: seq<LineItem>, req: ReturnRequest,
                    transform: (Option<LineItem>, ReturnRequest) -> Result<Option<T>>): Result<Option<T>>
  {
    transform(FindById(pool, req.itemId), req)
  }

  /** A transformer outcome that contributes an element to the result. */
  predicate Kept<T>(o: Result<Option<T>>) {
    o.Ok? && o.value.Some?
  }

  /** Transforms every request against the pool, in request order, dropping
      falsy outputs; the first failing request in order decides the error. */
  function TransformEach<T>(pool: seq<LineItem>, reqs: seq<ReturnRequest>,
                            transform: (Option<LineItem>, ReturnRequest) -> Result<Option<T>>): (r: Result<seq<T>>)
    ensures r.Ok? <==> forall i :: 0 <= i < |reqs| ==> Apply(pool, reqs[i], transform).Ok?
    ensures r.Err? ==> exists i :: 0 <= i < |reqs| && Apply(pool, reqs[i], transform) == Err(r.error)
                                   && forall j :: 0 <= j < i ==> Apply(pool, reqs[j], transform).Ok?
    ensures r.Ok? ==> |r.value| <= |reqs|
    ensures r.Ok? && (exists i :: 0 <= i < |reqs| && Apply(pool, reqs[i], transform) == Ok(None)) ==>
              |r.value| < |reqs|
    decreases |reqs|
  {
    if |reqs| == 0 then Ok([])
    else
      var head := Apply(pool, reqs[0], transform);
      if head.Err? then Err(head.error)
      else
        var rest := TransformEach(pool, reqs[1..], transform);
        assert forall i :: 0 <= i < |reqs| - 1 ==> reqs[1..][i] == reqs[i + 1];
        if rest.Err? then Err(rest.error)
        else Ok((if head.value.Some? then [head.value.value] else []) + rest.value)
  }

  /** Every output of a successful mapping is the transformed value of some request. */
  lemma {:induction false} TransformEachOutputs<T>(pool: seq<LineItem>, reqs: seq<ReturnRequest>,
                                                  transform: (Option<LineItem>, ReturnRequest) -> Result<Option<T>>)
    ensures var r := TransformEach(pool, reqs, transform);
            r.Ok? ==> forall x :: x in r.value ==>
                        exists i :: 0 <= i < |reqs| && Apply(pool, reqs[i], transform) == Ok(Some(x))
    decreases |reqs|
  {
    if |reqs| > 0 {
      TransformEachOutputs(pool, reqs[1..], transform);
      var r := TransformEach(pool, reqs, transform);
      if r.Ok? {
        var rest := TransformEach(pool, reqs[1..], transform);
        forall x | x in r.value
          ensures exists i :: 0 <= i < |reqs| && Apply(pool, reqs[i], transform) == Ok(Some(x))
        {
          if x !in rest.value {
            assert Apply(pool, reqs[0], transform) == Ok(Some(x));
          } else {
            var i :| 0 <= i < |reqs[1..]| && Apply(pool, reqs[1..][i], transform) == Ok(Some(x));
            assert reqs[1..][i] == reqs[i + 1];
          }
        }
      }
    }
  }

  /** When every request yields a value, nothing is dropped: the i-th output
      is the i-th request's value. */
  lemma {:induction false} TransformEachKeepsAll<T>(pool: seq<LineItem>, reqs: seq<ReturnRequest>,
                                                   transform: (Option<LineItem>, ReturnRequest) -> Result<Option<T>>)
    ensures var r := TransformEach(pool, reqs, transform);
            (forall i :: 0 <= i < |reqs| ==> Kept(Apply(pool, reqs[i], transform))) ==>
              && r.Ok? && |r.value| == |reqs|
              && forall i :: 0 <= i < |reqs| ==> Apply(pool, reqs[i], transform) == Ok(Some(r.value[i]))
    decreases |reqs|
  {
    if |reqs| > 0 && forall i :: 0 <= i < |reqs| ==> Kept(Apply(pool, reqs[i], transform)) {
      assert forall i :: 0 <= i < |reqs| - 1 ==> reqs[1..][i] == reqs[i + 1];
      TransformEachKeepsAll(pool, reqs[1..], transform);
      var r := TransformEach(pool, reqs, transform);
      var rest := TransformEach(pool, reqs[1..], transform);
      assert r.value == [Apply(pool, reqs[0], transform).value.value] + rest.value;
    }
  }

  /** The first failing request decides the error of the whole mapping. */
  lemma FirstFailureDecides<T>(pool: seq<LineItem>, reqs: seq<ReturnRequest>,
                               transform: (Option<LineItem>, ReturnRequest) -> Result<Option<T>>, i: nat)
    requires i < |reqs| && Apply(pool, reqs[i], transform).Err?
    requires forall j :: 0 <= j < i ==> Apply(pool, reqs[j], transform).Ok?
    ensures TransformEach(pool, reqs, transform) == Err(Apply(pool, reqs[i], transform).error)
  {
    var r := TransformEach(pool, reqs, transform);
    var w :| 0 <= w < |reqs| && Apply(pool, reqs[w], transform) == Err(r.error)
             && forall j :: 0 <= j < w ==> Apply(pool, reqs[j], transform).Ok?;
  }

  /** getFulfillmentItems: each request is looked up in the order's pool and
      transformed; outputs follow the request order. */
  function GetFulfillmentItems<T>(order: Order, reqs: seq<ReturnRequest>,
                                  transform: (Option<LineItem>, ReturnRequest) -> Result<Option<T>>): (r: Result<seq<T>>)
    ensures r.Ok? <==> forall i :: 0 <= i < |reqs| ==> Apply(Pool(order), reqs[i], transform).Ok?
    ensures r.Err? ==> exists i :: 0 <= i < |reqs| && Apply(Pool(order), reqs[i], transform) == Err(r.error)
                                   && forall j :: 0 <= j < i ==> Apply(Pool(order), reqs[j], transform).Ok?
    ensures r.Ok? ==> forall x :: x in r.value ==>
                        exists i :: 0 <= i < |reqs| && Apply(Pool(order), reqs[i], transform) == Ok(Some(x))
    ensures r.Ok? && (exists i :: 0 <= i < |reqs| && Apply(Pool(order), reqs[i], transform) == Ok(None)) ==>
              |r.value| < |reqs|
    ensures (forall i :: 0 <= i < |reqs| ==> Kept(Apply(Pool(order), reqs[i], transform))) ==>
              && r.Ok? && |r.value| == |reqs|
              && forall i :: 0 <= i < |reqs| ==> Apply(Pool(order), reqs[i], transform) == Ok(Some(r.value[i]))
  {
    TransformEachOutputs(Pool(order), reqs, transform);
    TransformEachKeepsAll(Pool(order), reqs, transform);
    TransformEach(Pool(order), reqs, transform)
  }

  /** Mapping a single request yields that request's outcome, as a list. */
  lemma SingleRequest<T>(order: Order, req: ReturnRequest,
                         transform: (Option<LineItem>, ReturnRequest) -> Result<Option<T>>)
    ensures GetFulfillmentItems(order, [req], transform) ==
              match Apply(Pool(order), req, transform)
              case Err(e) => Err(e)
              case Ok(o) => Ok(if o.Some? then [o.value] else [])
  {
    var pool := Pool(order);
    assert [req][1..] == [] && [req][0] == req;
    assert TransformEach(pool, [], transform) == Ok([]);
    match Apply(pool, req, transform)
    case Err(e) =>
    case Ok(o) =>
      var out := if o.Some? then [o.value] else [];
      assert out + [] == out;
  }

  /** Whether request `req` passes validation against the pool. */
  predicate LineAcceptable(pool: seq<LineItem>, req: ReturnRequest) {
    var item := FindById(pool, req.itemId);
    item.Some? && req.quantity <= Returnable(item.value)
  }

  /** With validateReturnLineItem as the transformer (the create and receive
      paths) nothing is dropped: the lines succeed exactly when every request
      names a pool item with enough returnable quantity, and then the i-th
      line is the i-th request's item with the requested quantity. */
  lemma ValidatedLinesFollowRequests(order: Order, reqs: seq<ReturnRequest>)
    ensures var r := GetFulfillmentItems(order, reqs, ValidateReturnLineItem);
            && (r.Ok? <==> forall i :: 0 <= i < |reqs| ==> LineAcceptable(Pool(order), reqs[i]))
            && (r.Ok? ==>
                  && |r.value| == |reqs|
                  && forall i :: 0 <= i < |reqs| ==>
                       && r.value[i].line == FindById(Pool(order), reqs[i].itemId).value.(quantity := reqs[i].quantity)
                       && r.value[i].reasonId == reqs[i].reasonId
                       && r.value[i].note == reqs[i].note)
  {
    var pool := Pool(order);
    var r := GetFulfillmentItems(order, reqs, ValidateReturnLineItem);
    forall i | 0 <= i < |reqs|
      ensures Apply(pool, reqs[i], ValidateReturnLineItem).Ok? <==> LineAcceptable(pool, reqs[i])
    {
    }
    if r.Ok? {
      forall i | 0 <= i < |reqs|
        ensures Kept(Apply(pool, reqs[i], ValidateReturnLineItem))
      {
      }
    }
  }

  /** Validation errors: a request naming no pool item is invalid data, one
      asking for more than is returnable is not allowed. */
  lemma ValidationErrorKinds(order: Order, reqs: seq<ReturnRequest>)
    ensures var r := GetFulfillmentItems(order, reqs, ValidateReturnLineItem);
            r.Err? ==> exists i :: 0 <= i < |reqs| && !LineAcceptable(Pool(order), reqs[i])
                                   && (FindById(Pool(order), reqs[i].itemId).None? <==> r.error == InvalidData)
  {
  }
}
