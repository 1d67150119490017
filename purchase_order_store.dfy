/**
  The `purchaseOrderStatusChange` job as it runs: the `purchase-orders-unleashed`
  table as an object whose requests may throw, the two loops of
  `processPurchaseOrders` that call it and push change entries, the
  `createMessage` loop and the handler.

  Every loop is proved against the plan in `PurchaseOrderDiff`: after any
  number of successful requests the table is the old table with a prefix of
  the plan applied, and the entries are that prefix's entries.
*/
module PurchaseOrderStore {
  import opened Common
  import opened PurchaseOrderDiff

  /** `requests` more requests go through when the store's budget is `budget`. */
  function Allows(budget: Option<nat>, requests: nat): bool {
    budget.None? || requests <= budget.value
  }

  /** The budget left once `requests` requests have been attempted. */
  function Spent(budget: Option<nat>, requests: nat): Option<nat> {
    if budget.None? then None
    else if requests <= budget.value then Some(budget.value - requests)
    else Some(0)
  }

  /**
    The key-value table keyed by purchase-order number. Whether the service
    answers is outside the program, so it is a budget: `failAfter == None`
    never fails, `Some(n)` lets `n` more requests through and makes every
    later one throw without touching the table.
  */
  class OrderStore {
    var items: Table
    var failAfter: Option<nat>

    ghost predicate Valid()
      reads this
    {
      WellKeyed(items)
    }

    constructor(init: Table, budget: Option<nat>)
      requires WellKeyed(init)
      ensures Valid() && items == init && failAfter == budget
    {
      items := init;
      failAfter := budget;
    }

    /** Takes one request from the budget; `ok` is whether it goes through. */
    method Admit() returns (ok: bool)
      modifies this
      ensures ok == Allows(old(failAfter), 1)
      ensures failAfter == Spent(old(failAfter), 1)
      ensures items == old(items)
    {
      match failAfter
      case None => ok := true;
      case Some(n) =>
        ok := n > 0;
        if ok {
          failAfter := Some(n - 1);
        }
    }

    /** `PutItemCommand`: stores `item` under its number, replacing what was there. */
    method Put(item: PurchaseOrder) returns (ok: bool)
      requires Valid()
      modifies this
      ensures Valid()
      ensures ok == Allows(old(failAfter), 1)
      ensures failAfter == Spent(old(failAfter), 1)
      ensures items == if ok then old(items)[item.number := item] else old(items)
    {
      ok := Admit();
      if ok {
        items := items[item.number := item];
      }
    }

    /** `DeleteItemCommand`: removes the item stored under `key`, if any. */
    method Delete(key: string) returns (ok: bool)
      requires Valid()
      modifies this
      ensures Valid()
      ensures ok == Allows(old(failAfter), 1)
      ensures failAfter == Spent(old(failAfter), 1)
      ensures items == if ok then old(items) - {key} else old(items)
    {
      ok := Admit();
      if ok {
        items := items - {key};
      }
    }

    /** One store call of the plan. */
    method Perform(op: StoreOp) returns (ok: bool)
      requires Valid()
      modifies this
      ensures Valid()
      ensures ok == Allows(old(failAfter), 1)
      ensures failAfter == Spent(old(failAfter), 1)
      ensures items == if ok then Exec(old(items), op) else old(items)
    {
      match op
      case Put(item) => ok := Put(item);
      case Delete(key) => ok := Delete(key);
    }

    /** `ScanCommand`: every stored item once, in an order the table chooses. */
    method Scan() returns (ok: bool, rows: seq<PurchaseOrder>)
      requires Valid()
      modifies this
      ensures Valid()
      ensures ok == Allows(old(failAfter), 1)
      ensures failAfter == Spent(old(failAfter), 1)
      ensures items == old(items)
      ensures ok ==> ScanOf(items, rows)
    {
      ok := Admit();
      rows := [];
      if ok {
        rows := ScanRows(items);
      }
    }
  }

  /** `rows` holds every item of `t` except those under the keys in `remaining`, each once. */
  ghost predicate PartialScan(t: Table, rows: seq<PurchaseOrder>, remaining: set<string>) {
    && remaining <= t.Keys
    && NumberSet(rows) == t.Keys - remaining
    && (forall i :: 0 <= i < |rows| ==> rows[i].number in t && t[rows[i].number] == rows[i])
    && DistinctNumbers(rows)
  }

  /** The rows of a scan, collected key by key in an order the table chooses. */
  method ScanRows(t: Table) returns (rows: seq<PurchaseOrder>)
    requires WellKeyed(t)
    ensures ScanOf(t, rows)
  {
    rows := [];
    var remaining := t.Keys;
    while remaining != {}
      invariant PartialScan(t, rows, remaining)
      decreases |remaining|
    {
      var k :| k in remaining;
      ScanStep(t, rows, remaining, k);
      rows := rows + [t[k]];
      remaining := remaining - {k};
    }
  }

  lemma ScanStep(t: Table, rows: seq<PurchaseOrder>, remaining: set<string>, k: string)
    requires WellKeyed(t) && PartialScan(t, rows, remaining) && k in remaining
    ensures PartialScan(t, rows + [t[k]], remaining - {k})
  {
    forall i | 0 <= i < |rows| ensures rows[i].number != k {
      assert rows[i] in rows;
    }
    NumberSetSnoc(rows, t[k]);
    var rows' := rows + [t[k]];
    assert forall i :: 0 <= i < |rows| ==> rows'[i] == rows[i];
  }

  /**
    `deleteOrders`: deletes each order in turn and pushes its entry once the
    delete returned. `done` counts the deletes that went through; the first
    one that throws ends the loop.
  */
  method DeleteOrders(store: OrderStore, orders: seq<PurchaseOrder>, result: seq<Change>)
    returns (ok: bool, result': seq<Change>, ghost done: nat)
    requires store.Valid()
    modifies store
    ensures store.Valid()
    ensures done <= |orders|
    ensures store.items == Apply(old(store.items), Ops(DeletionActions(orders[..done])))
    ensures result' == result + Changes(DeletionActions(orders[..done]))
    ensures store.failAfter == Spent(old(store.failAfter), done)
    ensures ok == Allows(old(store.failAfter), |orders|)
    ensures ok ==> done == |orders|
    ensures !ok ==> done == old(store.failAfter).value
  {
    ghost var t0 := store.items;
    ghost var f0 := store.failAfter;
    result' := result;
    var i := 0;
    while i < |orders|
      invariant i <= |orders|
      invariant store.Valid()
      invariant store.items == Apply(t0, Ops(DeletionActions(orders[..i])))
      invariant result' == result + Changes(DeletionActions(orders[..i]))
      invariant store.failAfter == Spent(f0, i)
      invariant Allows(f0, i)
    {
      var order := orders[i];
      var deleted := store.Delete(order.number);
      if !deleted {
        return false, result', i;
      }
      result' := result' + [Change(order.number, Some(order.status), Deleted, order.lastModifiedOn, order.lastModifiedBy)];
      DeletionActionsSnoc(orders, i);
      ActionsSnoc(t0, DeletionActions(orders[..i]), DeletionAction(order));
      i := i + 1;
    }
    assert orders[..i] == orders;
    return true, result', i;
  }

  /**
    The body of the `processIncomingOrders` loop for one order: find the
    stored order with the same number in the scan, then make the call
    `updateOrderIfNecessary` or `insertNewOrder` makes and push its entry,
    or do nothing. `ok` is false when the call threw.
  */
  method ProcessIncomingOrder(store: OrderStore, existing: seq<PurchaseOrder>, order: PurchaseOrder)
    returns (ok: bool, entries: seq<Change>)
    requires store.Valid()
    modifies store
    ensures store.Valid()
    ensures var a := IncomingAction(existing, order);
            && ok == (a.None? || Allows(old(store.failAfter), 1))
            && store.failAfter == (if a.Some? then Spent(old(store.failAfter), 1) else old(store.failAfter))
            && store.items == (if ok then ExecAction(old(store.items), a) else old(store.items))
            && entries == (if ok then Changes(AsSeq(a)) else [])
  {
    var existingOrder := Find(existing, order.number);
    var action: Option<Action>;
    if existingOrder.Some? {
      action := UpdateOrderIfNecessary(existingOrder.value, order);
    } else if order.status != Complete {
      action := Some(InsertNewOrder(order));
    } else {
      action := None;
    }
    assert action == IncomingAction(existing, order);
    if action.Some? {
      ok := store.Perform(action.value.op);
      entries := if ok then [action.value.change] else [];
    } else {
      ok, entries := true, [];
    }
  }

  /**
    `processIncomingOrders`: the loop over the feed, in feed order.
    `processed` counts the orders handled in full; the first call that
    throws ends the loop.
  */
  method ProcessIncomingOrders(store: OrderStore, incoming: seq<PurchaseOrder>, existing: seq<PurchaseOrder>, result: seq<Change>)
    returns (ok: bool, result': seq<Change>, ghost processed: nat)
    requires store.Valid()
    modifies store
    ensures store.Valid()
    ensures ok == Allows(old(store.failAfter), |IncomingActions(existing, incoming)|)
    ensures processed <= |incoming|
    ensures ok ==> processed == |incoming|
    ensures var acts := IncomingActions(existing, incoming[..processed]);
            && store.items == Apply(old(store.items), Ops(acts))
            && result' == result + Changes(acts)
            && store.failAfter == Spent(old(store.failAfter), |acts|)
            && (!ok ==> |acts| == old(store.failAfter).value)
  {
    ghost var t0 := store.items;
    ghost var f0 := store.failAfter;
    ghost var acts: seq<Action> := [];
    result' := result;
    ok := true;
    var i := 0;
    while i < |incoming|
      invariant i <= |incoming|
      invariant acts == IncomingActions(existing, incoming[..i])
      invariant store.Valid()
      invariant store.items == Apply(t0, Ops(acts))
      invariant result' == result + Changes(acts)
      invariant store.failAfter == Spent(f0, |acts|)
      invariant Allows(f0, |acts|)
    {
      var done, entries := IncomingTurn(store, existing, incoming, i, t0, f0);
      if !done {
        ok := false;
        break;
      }
      result' := result' + entries;
      acts := IncomingActions(existing, incoming[..i + 1]);
      i := i + 1;
    }
    if ok {
      assert incoming[..i] == incoming;
    }
    processed := i;
  }

  /**
    One turn of the `processIncomingOrders` loop, stated against the prefix
    of the feed it completes: either the table and the entries grow by the
    order's call, or the call threw because the budget ran out exactly there.
  */
  method IncomingTurn(store: OrderStore, existing: seq<PurchaseOrder>, incoming: seq<PurchaseOrder>, i: nat,
                      ghost t0: Table, ghost f0: Option<nat>)
    returns (ok: bool, entries: seq<Change>)
    requires i < |incoming| && store.Valid()
    requires store.items == Apply(t0, Ops(IncomingActions(existing, incoming[..i])))
    requires store.failAfter == Spent(f0, |IncomingActions(existing, incoming[..i])|)
    requires Allows(f0, |IncomingActions(existing, incoming[..i])|)
    modifies store
    ensures store.Valid()
    ensures var before := IncomingActions(existing, incoming[..i]);
            var after := IncomingActions(existing, incoming[..i + 1]);
            if ok then
              && store.items == Apply(t0, Ops(after))
              && Changes(after) == Changes(before) + entries
              && store.failAfter == Spent(f0, |after|)
              && Allows(f0, |after|)
            else
              && store.items == old(store.items) && store.failAfter == old(store.failAfter)
              && f0.Some? && |before| == f0.value
              && !Allows(f0, |IncomingActions(existing, incoming)|)
  {
    IncomingPrefixStep(t0, existing, incoming, i);
    ok, entries := ProcessIncomingOrder(store, existing, incoming[i]);
    if !ok {
      IncomingFailure(f0, existing, incoming, i);
    }
  }

  /** A call that throws at order `i` means the budget could not cover the whole feed. */
  lemma IncomingFailure(f0: Option<nat>, existing: seq<PurchaseOrder>, incoming: seq<PurchaseOrder>, i: nat)
    requires i < |incoming|
    requires Allows(f0, |IncomingActions(existing, incoming[..i])|)
    requires !Allows(Spent(f0, |IncomingActions(existing, incoming[..i])|), 1)
    requires IncomingAction(existing, incoming[i]).Some?
    ensures f0.Some? && |IncomingActions(existing, incoming[..i])| == f0.value
    ensures !Allows(f0, |IncomingActions(existing, incoming)|)
  {
    IncomingActionsConcat(existing, incoming[..i + 1], incoming[i + 1..]);
    assert incoming[..i + 1] + incoming[i + 1..] == incoming;
    IncomingActionsSnoc(existing, incoming, i);
  }

  /**
    The two loops of `processPurchaseOrders` after the scan: the absence
    deletions, then the feed. `ok` is false when a call threw; `done` is the
    number of calls that went through, always a prefix of the run's calls.
  */
  method RunCalls(store: OrderStore, existing: seq<PurchaseOrder>, purchaseOrders: seq<PurchaseOrder>,
                  ordersToDelete: seq<PurchaseOrder>)
    returns (ok: bool, changes: seq<Change>, ghost done: nat)
    requires store.Valid()
    modifies store
    ensures store.Valid()
    ensures var calls := DeletionActions(ordersToDelete) + IncomingActions(existing, purchaseOrders);
            && done <= |calls|
            && store.items == Apply(old(store.items), Ops(calls[..done]))
            && ok == Allows(old(store.failAfter), |calls|)
            && (ok ==> done == |calls| && changes == Changes(calls))
            && (!ok ==> done == old(store.failAfter).value)
  {
    ghost var t0 := store.items;
    ghost var d := DeletionActions(ordersToDelete);
    var deleted, changes0, d1 := DeleteOrders(store, ordersToDelete, []);
    if !deleted {
      DeletionsPrefix(ordersToDelete, IncomingActions(existing, purchaseOrders), d1);
      return false, changes0, d1;
    }
    assert ordersToDelete[..d1] == ordersToDelete;
    assert changes0 == Changes(d);
    var processed, changes', p := ProcessIncomingOrders(store, purchaseOrders, existing, changes0);
    ghost var acts := IncomingActions(existing, purchaseOrders[..p]);
    CallsAfterIncoming(t0, d, existing, purchaseOrders, p);
    SpentThenAllows(old(store.failAfter), |d|, |IncomingActions(existing, purchaseOrders)|);
    return processed, changes', |d| + |acts|;
  }

  /** The deletions of a prefix of the rows are a prefix of the run's calls. */
  lemma DeletionsPrefix(rows: seq<PurchaseOrder>, rest: seq<Action>, k: nat)
    requires k <= |rows|
    ensures (DeletionActions(rows) + rest)[..k] == DeletionActions(rows[..k])
  {
    assert (DeletionActions(rows) + rest)[..k] == DeletionActions(rows)[..k];
  }

  /** Budget arithmetic: `a` requests, then `b` more, is `a + b` requests. */
  lemma SpentThenAllows(budget: Option<nat>, a: nat, b: nat)
    requires Allows(budget, a)
    ensures Allows(Spent(budget, a), b) == Allows(budget, a + b)
    ensures Spent(budget, a).Some? ==> budget.Some? && Spent(budget, a).value + a == budget.value
  {
  }

  /** The calls made once the deletions and a prefix of the feed are through, as a prefix of the run's calls. */
  lemma CallsAfterIncoming(t0: Table, d: seq<Action>, existing: seq<PurchaseOrder>, purchaseOrders: seq<PurchaseOrder>, p: nat)
    requires p <= |purchaseOrders|
    ensures var calls := d + IncomingActions(existing, purchaseOrders);
            var acts := IncomingActions(existing, purchaseOrders[..p]);
            && |d| + |acts| <= |calls|
            && calls[..|d| + |acts|] == d + acts
            && Apply(t0, Ops(d + acts)) == Apply(Apply(t0, Ops(d)), Ops(acts))
            && Changes(d + acts) == Changes(d) + Changes(acts)
            && (p == |purchaseOrders| ==> calls == d + acts)
  {
    ghost var acts := IncomingActions(existing, purchaseOrders[..p]);
    ghost var rest := IncomingActions(existing, purchaseOrders[p..]);
    IncomingActionsPrefix(existing, purchaseOrders, p);
    PlanPrefix(t0, d, acts, rest);
    if p == |purchaseOrders| {
      assert purchaseOrders[..p] == purchaseOrders;
    }
  }

  /**
    `processPurchaseOrders`: scans the table, deletes the stored orders the
    feed no longer lists, then works through the feed. Any request that
    throws makes the result `null` (`None`), with the calls made so far left
    in the table; otherwise the result is the entries, or `null` when there
    are none. `existing` is the scan the run was judged against and `done`
    the number of store calls of the plan that went through.
  */
  method ProcessPurchaseOrders(store: OrderStore, purchaseOrders: seq<PurchaseOrder>)
    returns (result: Option<seq<Change>>, ghost existing: seq<PurchaseOrder>, ghost done: nat)
    requires store.Valid()
    modifies store
    ensures store.Valid()
    ensures Allows(old(store.failAfter), 1) ==> ScanOf(old(store.items), existing)
    ensures var plan := Plan(existing, purchaseOrders);
            && done <= |plan|
            && store.items == Apply(old(store.items), Ops(plan[..done]))
            && (Allows(old(store.failAfter), 1 + |plan|) ==> done == |plan| && result == NonEmpty(Changes(plan)))
            && (!Allows(old(store.failAfter), 1 + |plan|) ==>
                  result == None && done == if old(store.failAfter).value == 0 then 0 else old(store.failAfter).value - 1)
  {
    var scanned, existingOrders := store.Scan();
    if !scanned {
      existing := [];
      return None, existing, 0;
    }
    existing := existingOrders;
    var ordersToDelete := FindOrdersToDelete(existingOrders, purchaseOrders);
    var ok, changes, d := RunCalls(store, existingOrders, purchaseOrders, ordersToDelete);
    done := d;
    result := if ok then NonEmpty(changes) else None;
  }

  /** `createMessage`: the header, then one line per entry appended in entry order. */
  method CreateMessage(updates: seq<Change>) returns (message: string)
    ensures message == Message(updates)
  {
    if |updates| == 0 {
      return NoUpdatesMessage;
    }
    message := MessageHeader;
    for i := 0 to |updates|
      invariant message == MessageHeader + Lines(updates[..i])
    {
      LinesSnoc(MessageHeader, updates, i);
      message := message + LineText(updates[i]) + "\n";
    }
    assert updates[..|updates|] == updates;
  }

  /** What the Lambda returns. */
  datatype Response = Response(statusCode: int, body: string)

  const NothingToProcess := Response(200, "No purchase orders to process.")
  const NoUpdates := Response(200, "No updates to process.")
  const Sent := Response(200, "Purchase orders processed and message sent successfully.")
  const Failed := Response(500, "Failed to process purchase orders.")

  /**
    The handler, from the page bodies the fetch returned. A body without an
    `Items` list makes the flattening throw, which the handler's `catch`
    answers with `Failed` before the table is touched. `notification` is the
    message handed to SNS; the publish step catches its own errors, so the
    answer does not depend on it. `existing` and `result` are the engine's
    scan and result.
  */
  method Handler(store: OrderStore, bodies: seq<PageBody>)
    returns (response: Response, notification: Option<string>,
             ghost existing: seq<PurchaseOrder>, ghost result: Option<seq<Change>>)
    requires store.Valid()
    modifies store
    ensures store.Valid()
    ensures ItemLists(bodies).Failure? ==>
              response == Failed && notification == None && result == None
              && store.items == old(store.items) && store.failAfter == old(store.failAfter)
    ensures ItemLists(bodies).Success? ==>
            var orders := ProcessFetchedPurchaseOrders(ItemLists(bodies).value);
            && (orders == [] ==>
                  response == NothingToProcess && notification == None
                  && store.items == old(store.items) && store.failAfter == old(store.failAfter))
            && (orders != [] && Allows(old(store.failAfter), 1 + |Plan(existing, orders)|) ==>
                  ScanOf(old(store.items), existing)
                  && store.items == RunStore(old(store.items), existing, orders)
                  && result == NonEmpty(Changes(Plan(existing, orders))))
            && (orders != [] && !Allows(old(store.failAfter), 1 + |Plan(existing, orders)|) ==> result == None)
            && (orders != [] && result == None ==> response == NoUpdates && notification == None)
    ensures result.Some? ==> notification == Some(Message(result.value)) && response == Sent
  {
    existing, result := [], None;
    var pages := ItemLists(bodies);
    if pages.Failure? {
      return Failed, None, existing, result;
    }
    var purchaseOrders := ProcessFetchedPurchaseOrders(pages.value);
    if |purchaseOrders| == 0 {
      return NothingToProcess, None, existing, result;
    }
    var processedOrders, scan, done := ProcessPurchaseOrders(store, purchaseOrders);
    existing, result := scan, processedOrders;
    ghost var plan := Plan(existing, purchaseOrders);
    if Allows(old(store.failAfter), 1 + |plan|) {
      assert plan[..done] == plan;
    }
    if processedOrders.None? {
      return NoUpdates, None, existing, result;
    }
    var createdMessage := CreateMessage(processedOrders.value);
    notification := Some(createdMessage);
    response := Sent;
  }
}
