/**
  The purchase-order snapshot diff of the `purchaseOrderStatusChange` job,
  as values: which store calls a run makes, in which order, which change
  entry each one pushes, and what the table holds afterwards.

  The table is keyed by purchase-order number. A run compares the fresh
  feed from Unleashed with a scan of the table: stored orders missing from
  the feed are deleted first (status `"Deleted"` in the entry), then each
  incoming order is deleted when it reached the terminal status
  `"Complete"`, overwritten when its status changed, or inserted when it is
  new and not complete.
*/
module PurchaseOrderDiff {
  import opened Common
  import Seqs

  /** The terminal status: an order that reaches it stops being tracked. */
  const Complete := "Complete"
  /** The status written in the entry of an order that left the feed. */
  const Deleted := "Deleted"

  /** An order as the job tracks it; also the shape of a stored item. */
  datatype PurchaseOrder = PurchaseOrder(
    number: string,
    status: string,
    lastModifiedOn: string,
    lastModifiedBy: string)

  /** One item of an Unleashed `PurchaseOrders` page, reduced to the fields the job reads. */
  datatype RawPurchaseOrder = RawPurchaseOrder(
    orderNumber: string,
    orderStatus: string,
    lastModifiedOn: string,
    lastModifiedBy: string)

  /** One entry of a run's change list; `oldStatus == None` is the source's `null`. */
  datatype Change = Change(
    number: string,
    oldStatus: Option<string>,
    newStatus: string,
    lastModifiedOn: string,
    lastModifiedBy: string)

  /** A call to the key-value table. */
  datatype StoreOp = Put(item: PurchaseOrder) | Delete(key: string)

  /** A store call and the entry pushed once that call has returned. */
  datatype Action = Action(op: StoreOp, change: Change)

  /** The table's contents, keyed by purchase-order number. */
  type Table = map<string, PurchaseOrder>

  function KeyOf(op: StoreOp): string {
    match op
    case Put(item) => item.number
    case Delete(key) => key
  }

  function Lookup(t: Table, key: string): Option<PurchaseOrder> {
    if key in t then Some(t[key]) else None
  }

  /** Every item is stored under its own number. */
  ghost predicate WellKeyed(t: Table) {
    forall k :: k in t ==> t[k].number == k
  }

  function NumberSet(orders: seq<PurchaseOrder>): set<string> {
    set o | o in orders :: o.number
  }

  predicate DistinctNumbers(orders: seq<PurchaseOrder>) {
    forall i, j :: 0 <= i < j < |orders| ==> orders[i].number != orders[j].number
  }

  /** `rows` is what a full scan of `t` returns: every item once, in some order. */
  ghost predicate ScanOf(t: Table, rows: seq<PurchaseOrder>) {
    && NumberSet(rows) == t.Keys
    && (forall i :: 0 <= i < |rows| ==> rows[i].number in t && t[rows[i].number] == rows[i])
    && DistinctNumbers(rows)
  }

  // ---------------------------------------------------------------------
  // Reading the feed

  /** The feed keeps the order-date text as it comes; its display formatting is not modelled. */
  function FromRaw(item: RawPurchaseOrder): PurchaseOrder {
    PurchaseOrder(item.orderNumber, item.orderStatus, item.lastModifiedOn, item.lastModifiedBy)
  }

  function ItemCount(pages: seq<seq<RawPurchaseOrder>>): nat {
    if pages == [] then 0 else ItemCount(pages[..|pages| - 1]) + |pages[|pages| - 1]|
  }

  /** The orders of one page, `item.Items.map(...)`. */
  function PageOrders(page: seq<RawPurchaseOrder>): (r: seq<PurchaseOrder>)
    ensures |r| == |page|
    ensures forall i :: 0 <= i < |page| ==> r[i] == FromRaw(page[i])
    ensures forall item :: item in page ==> FromRaw(item) in r
  {
    seq(|page|, i requires 0 <= i < |page| => FromRaw(page[i]))
  }

  /** `processFetchedPurchaseOrders`: the items of every page, page after page, as orders. */
  function ProcessFetchedPurchaseOrders(pages: seq<seq<RawPurchaseOrder>>): (r: seq<PurchaseOrder>)
    ensures |r| == ItemCount(pages)
    ensures forall p, item :: p in pages && item in p ==> FromRaw(item) in r
  {
    if pages == [] then []
    else
      var init := ProcessFetchedPurchaseOrders(pages[..|pages| - 1]);
      var last := pages[|pages| - 1];
      assert forall p :: p in pages ==> p in pages[..|pages| - 1] || p == last;
      init + PageOrders(last)
  }

  /**
    The `i`-th item of page `p` becomes the order right after the items of
    the pages before it: pages keep their order, and so do the items of a page.
  */
  lemma ProcessFetchedAt(pages: seq<seq<RawPurchaseOrder>>, p: nat, i: nat)
    requires p < |pages| && i < |pages[p]|
    ensures ItemCount(pages[..p]) + i < |ProcessFetchedPurchaseOrders(pages)|
    ensures ProcessFetchedPurchaseOrders(pages)[ItemCount(pages[..p]) + i] == FromRaw(pages[p][i])
  {
    var upTo := pages[..p + 1];
    assert upTo[..p] == pages[..p];
    assert ProcessFetchedPurchaseOrders(upTo) == ProcessFetchedPurchaseOrders(pages[..p]) + PageOrders(pages[p]);
    assert pages == upTo + pages[p + 1..];
    ProcessFetchedConcat(upTo, pages[p + 1..]);
  }

  /** A fetched page body: its `Items` list, or `None` when the body has none. */
  type PageBody = Option<seq<RawPurchaseOrder>>

  /** What `item.Items.map` throws on a page body without `Items`. */
  const NoItems := "TypeError: Cannot read properties of undefined (reading 'map')"

  /**
    The `Items` lists of the fetched page bodies, as `flatMap` reads them:
    it throws on the first body without one.
  */
  function ItemLists(bodies: seq<PageBody>): (r: Result<seq<seq<RawPurchaseOrder>>, string>)
    ensures r.Success? <==> forall i :: 0 <= i < |bodies| ==> bodies[i].Some?
    ensures r.Success? ==> |r.value| == |bodies| && forall i :: 0 <= i < |bodies| ==> r.value[i] == bodies[i].value
  {
    if bodies == [] then Success([])
    else
      match ItemLists(bodies[..|bodies| - 1])
      case Failure(e) => Failure(e)
      case Success(init) =>
        var last := bodies[|bodies| - 1];
        if last.None? then Failure(NoItems) else Success(init + [last.value])
  }

  /** Reading the pages in two batches gives the same orders as reading them at once. */
  lemma {:induction false} ProcessFetchedConcat(a: seq<seq<RawPurchaseOrder>>, b: seq<seq<RawPurchaseOrder>>)
    ensures ProcessFetchedPurchaseOrders(a + b)
         == ProcessFetchedPurchaseOrders(a) + ProcessFetchedPurchaseOrders(b)
    decreases |b|
  {
    if b != [] {
      var b' := b[..|b| - 1];
      var last := b[|b| - 1];
      assert (a + b)[..|a + b| - 1] == a + b';
      assert (a + b)[|a + b| - 1] == last;
      assert ProcessFetchedPurchaseOrders(a + b) == ProcessFetchedPurchaseOrders(a + b') + PageOrders(last);
      assert ProcessFetchedPurchaseOrders(b) == ProcessFetchedPurchaseOrders(b') + PageOrders(last);
      ProcessFetchedConcat(a, b');
    } else {
      assert a + b == a;
    }
  }

  // ---------------------------------------------------------------------
  // The decisions of one run

  /** `existingOrders.find(...)`: the first order with that number. */
  function Find(orders: seq<PurchaseOrder>, number: string): (r: Option<PurchaseOrder>)
    ensures r.None? <==> number !in NumberSet(orders)
    ensures r.Some? ==> exists i :: 0 <= i < |orders| && orders[i] == r.value && r.value.number == number
                                    && forall j :: 0 <= j < i ==> orders[j].number != number
  {
    if orders == [] then None
    else if orders[0].number == number then Some(orders[0])
    else
      var r := Find(orders[1..], number);
      assert NumberSet(orders) == {orders[0].number} + NumberSet(orders[1..]) by {
        assert orders == [orders[0]] + orders[1..];
      }
      if r.Some? then
        var i :| 0 <= i < |orders[1..]| && orders[1..][i] == r.value && r.value.number == number
                 && forall j :: 0 <= j < i ==> orders[1..][j].number != number;
        assert orders[i + 1] == r.value;
        r
      else r
  }

  /** `findOrdersToDelete`: the stored orders whose number the feed no longer lists, in scan order. */
  function FindOrdersToDelete(existing: seq<PurchaseOrder>, incoming: seq<PurchaseOrder>): (r: seq<PurchaseOrder>)
    ensures Seqs.IsSubsequence(r, existing)
    ensures forall o :: o in r <==> o in existing && o.number !in NumberSet(incoming)
  {
    var numbers := NumberSet(incoming);
    Seqs.Filter(existing, (o: PurchaseOrder) => o.number !in numbers)
  }

  /** `deleteOrders`, for one stored order. */
  function DeletionAction(stored: PurchaseOrder): Action {
    Action(Delete(stored.number),
           Change(stored.number, Some(stored.status), Deleted, stored.lastModifiedOn, stored.lastModifiedBy))
  }

  function DeletionActions(rows: seq<PurchaseOrder>): seq<Action> {
    seq(|rows|, i requires 0 <= i < |rows| => DeletionAction(rows[i]))
  }

  function DeleteCompletedOrder(existing: PurchaseOrder, order: PurchaseOrder): Action {
    Action(Delete(order.number),
           Change(order.number, Some(existing.status), Complete, order.lastModifiedOn, order.lastModifiedBy))
  }

  function UpdateOrder(existing: PurchaseOrder, order: PurchaseOrder): Action {
    Action(Put(order),
           Change(order.number, Some(existing.status), order.status, order.lastModifiedOn, order.lastModifiedBy))
  }

  function InsertNewOrder(order: PurchaseOrder): Action {
    Action(Put(order), Change(order.number, None, order.status, order.lastModifiedOn, order.lastModifiedBy))
  }

  function UpdateOrderIfNecessary(existing: PurchaseOrder, order: PurchaseOrder): Option<Action> {
    if order.status == Complete then Some(DeleteCompletedOrder(existing, order))
    else if existing.status != order.status then Some(UpdateOrder(existing, order))
    else None
  }

  /**
    The body of `processIncomingOrders` for one incoming order, judged
    against the scan taken at the start of the run.
  */
  function IncomingAction(existing: seq<PurchaseOrder>, order: PurchaseOrder): (a: Option<Action>)
    ensures a.Some? ==> KeyOf(a.value.op) == order.number && a.value.change.number == order.number
    ensures a.Some? ==> a.value.change.newStatus == order.status
    ensures a.Some? ==> (a.value.change.lastModifiedOn == order.lastModifiedOn
                         && a.value.change.lastModifiedBy == order.lastModifiedBy)
    ensures a.Some? ==> (a.value.op.Delete? <==> order.status == Complete)
    ensures a.Some? && a.value.op.Put? ==> a.value.op.item == order
    ensures Find(existing, order.number).None? ==>
              (a.Some? <==> order.status != Complete) && (a.Some? ==> a.value.change.oldStatus == None)
    ensures Find(existing, order.number).Some? ==>
              var e := Find(existing, order.number).value;
              (a.Some? <==> order.status == Complete || e.status != order.status)
              && (a.Some? ==> a.value.change.oldStatus == Some(e.status))
  {
    match Find(existing, order.number)
    case Some(e) => UpdateOrderIfNecessary(e, order)
    case None => if order.status != Complete then Some(InsertNewOrder(order)) else None
  }

  function AsSeq(a: Option<Action>): seq<Action> {
    if a.Some? then [a.value] else []
  }

  function IncomingActions(existing: seq<PurchaseOrder>, incoming: seq<PurchaseOrder>): seq<Action> {
    if incoming == [] then []
    else IncomingActions(existing, incoming[..|incoming| - 1]) + AsSeq(IncomingAction(existing, incoming[|incoming| - 1]))
  }

  /** Everything one run does, in order: absence deletions first, then the feed in its order. */
  function Plan(existing: seq<PurchaseOrder>, incoming: seq<PurchaseOrder>): seq<Action> {
    DeletionActions(FindOrdersToDelete(existing, incoming)) + IncomingActions(existing, incoming)
  }

  function Ops(actions: seq<Action>): seq<StoreOp> {
    seq(|actions|, i requires 0 <= i < |actions| => actions[i].op)
  }

  function Changes(actions: seq<Action>): seq<Change> {
    seq(|actions|, i requires 0 <= i < |actions| => actions[i].change)
  }

  /** What `processPurchaseOrders` returns for a list of entries: `null` instead of `[]`. */
  function NonEmpty(changes: seq<Change>): Option<seq<Change>> {
    if |changes| > 0 then Some(changes) else None
  }

  // ---------------------------------------------------------------------
  // The table after the store calls

  function Exec(t: Table, op: StoreOp): Table {
    match op
    case Put(item) => t[item.number := item]
    case Delete(key) => t - {key}
  }

  function Apply(t: Table, ops: seq<StoreOp>): Table {
    if ops == [] then t else Exec(Apply(t, ops[..|ops| - 1]), ops[|ops| - 1])
  }

  function ExecAction(t: Table, a: Option<Action>): Table {
    if a.Some? then Exec(t, a.value.op) else t
  }

  /** The table after a run that completed, starting from `t` with scan `existing`. */
  function RunStore(t: Table, existing: seq<PurchaseOrder>, incoming: seq<PurchaseOrder>): Table {
    Apply(t, Ops(Plan(existing, incoming)))
  }

  lemma {:induction false} ApplyConcat(t: Table, a: seq<StoreOp>, b: seq<StoreOp>)
    ensures Apply(t, a + b) == Apply(Apply(t, a), b)
    decreases |b|
  {
    if b != [] {
      var b' := b[..|b| - 1];
      var last := b[|b| - 1];
      assert (a + b)[..|a + b| - 1] == a + b';
      assert (a + b)[|a + b| - 1] == last;
      assert Apply(t, a + b) == Exec(Apply(t, a + b'), last);
      assert Apply(Apply(t, a), b) == Exec(Apply(Apply(t, a), b'), last);
      ApplyConcat(t, a, b');
    } else {
      assert a + b == a;
    }
  }

  lemma OpsConcat(a: seq<Action>, b: seq<Action>)
    ensures Ops(a + b) == Ops(a) + Ops(b)
  {
  }

  lemma ActionsSnoc(t: Table, acts: seq<Action>, a: Action)
    ensures Ops(acts + [a]) == Ops(acts) + [a.op]
    ensures Changes(acts + [a]) == Changes(acts) + [a.change]
    ensures Apply(t, Ops(acts + [a])) == Exec(Apply(t, Ops(acts)), a.op)
  {
    assert Ops(acts + [a]) == Ops(acts) + [a.op];
    assert (Ops(acts) + [a.op])[..|acts|] == Ops(acts);
  }

  lemma DeletionActionsSnoc(rows: seq<PurchaseOrder>, i: nat)
    requires i < |rows|
    ensures DeletionActions(rows[..i + 1]) == DeletionActions(rows[..i]) + [DeletionAction(rows[i])]
  {
  }

  /** Splitting the feed splits the calls it causes. */
  lemma {:induction false} IncomingActionsConcat(existing: seq<PurchaseOrder>, a: seq<PurchaseOrder>, b: seq<PurchaseOrder>)
    ensures IncomingActions(existing, a + b) == IncomingActions(existing, a) + IncomingActions(existing, b)
    decreases |b|
  {
    if b == [] {
      assert a + b == a;
    } else {
      var b' := b[..|b| - 1];
      assert (a + b)[..|a + b| - 1] == a + b';
      assert (a + b)[|a + b| - 1] == b[|b| - 1];
      IncomingActionsConcat(existing, a, b');
    }
  }

  lemma IncomingActionsSnoc(existing: seq<PurchaseOrder>, incoming: seq<PurchaseOrder>, i: nat)
    requires i < |incoming|
    ensures IncomingActions(existing, incoming[..i + 1])
         == IncomingActions(existing, incoming[..i]) + AsSeq(IncomingAction(existing, incoming[i]))
  {
    assert incoming[..i + 1][..i] == incoming[..i];
  }

  /** Handling one more incoming order extends the calls, the entries and the table by that order's action. */
  lemma IncomingPrefixStep(t: Table, existing: seq<PurchaseOrder>, incoming: seq<PurchaseOrder>, i: nat)
    requires i < |incoming|
    ensures var before := IncomingActions(existing, incoming[..i]);
            var after := IncomingActions(existing, incoming[..i + 1]);
            var a := IncomingAction(existing, incoming[i]);
            && Apply(t, Ops(after)) == ExecAction(Apply(t, Ops(before)), a)
            && Changes(after) == Changes(before) + Changes(AsSeq(a))
            && |after| == |before| + |AsSeq(a)|
  {
    IncomingActionsSnoc(existing, incoming, i);
    var before := IncomingActions(existing, incoming[..i]);
    var a := IncomingAction(existing, incoming[i]);
    if a.Some? {
      assert AsSeq(a) == [a.value];
      ActionsSnoc(t, before, a.value);
    } else {
      assert before + AsSeq(a) == before;
    }
  }

  /** A run stopped during the absence deletions has made a prefix of the plan. */
  lemma DeletionPrefix(existing: seq<PurchaseOrder>, incoming: seq<PurchaseOrder>, k: nat)
    requires k <= |FindOrdersToDelete(existing, incoming)|
    ensures k <= |Plan(existing, incoming)|
    ensures Plan(existing, incoming)[..k] == DeletionActions(FindOrdersToDelete(existing, incoming)[..k])
  {
  }

  /** The calls of a prefix of the feed are a prefix of the feed's calls. */
  lemma IncomingActionsPrefix(existing: seq<PurchaseOrder>, incoming: seq<PurchaseOrder>, p: nat)
    requires p <= |incoming|
    ensures IncomingActions(existing, incoming)
         == IncomingActions(existing, incoming[..p]) + IncomingActions(existing, incoming[p..])
  {
    IncomingActionsConcat(existing, incoming[..p], incoming[p..]);
    assert incoming[..p] + incoming[p..] == incoming;
  }

  /** Making the calls `d + acts` of a plan `d + acts + rest`, in table and entries. */
  lemma PlanPrefix(t: Table, d: seq<Action>, acts: seq<Action>, rest: seq<Action>)
    ensures var plan := d + (acts + rest);
            && (d + (acts + rest))[..|d| + |acts|] == d + acts
            && Apply(t, Ops(d + acts)) == Apply(Apply(t, Ops(d)), Ops(acts))
            && Changes(d + acts) == Changes(d) + Changes(acts)
  {
    assert (d + (acts + rest))[..|d| + |acts|] == d + acts;
    OpsConcat(d, acts);
    ApplyConcat(t, Ops(d), Ops(acts));
    assert Changes(d + acts) == Changes(d) + Changes(acts);
  }

  /** Deleting the rows one by one removes exactly their numbers. */
  lemma {:induction false} ApplyDeletions(t: Table, rows: seq<PurchaseOrder>)
    ensures Apply(t, Ops(DeletionActions(rows))) == t - NumberSet(rows)
    decreases |rows|
  {
    if rows != [] {
      var init := rows[..|rows| - 1];
      var ops := Ops(DeletionActions(rows));
      assert ops[..|ops| - 1] == Ops(DeletionActions(init));
      assert NumberSet(rows) == NumberSet(init) + {rows[|rows| - 1].number} by {
        assert rows == init + [rows[|rows| - 1]];
      }
      ApplyDeletions(t, init);
    }
  }

  /** The one key a store call can change, and how. */
  lemma ExecLookup(t: Table, op: StoreOp, k: string)
    ensures KeyOf(op) != k ==> Lookup(Exec(t, op), k) == Lookup(t, k)
    ensures KeyOf(op) == k ==> Lookup(Exec(t, op), k) == if op.Put? then Some(op.item) else None
  {
  }

  lemma ExecActionOtherKey(t: Table, a: Option<Action>, k: string)
    requires a.Some? ==> KeyOf(a.value.op) != k
    ensures Lookup(ExecAction(t, a), k) == Lookup(t, k)
  {
    if a.Some? {
      ExecLookup(t, a.value.op, k);
    }
  }

  /** A call on key `k` leaves the same value under `k` whatever was there before. */
  lemma ExecActionSameKey(t: Table, u: Table, a: Option<Action>, k: string)
    requires a.Some? ==> KeyOf(a.value.op) == k
    requires a.None? ==> Lookup(t, k) == Lookup(u, k)
    ensures Lookup(ExecAction(t, a), k) == Lookup(ExecAction(u, a), k)
  {
    if a.Some? {
      ExecLookup(t, a.value.op, k);
      ExecLookup(u, a.value.op, k);
    }
  }

  lemma IncomingActionsStep(t: Table, existing: seq<PurchaseOrder>, incoming: seq<PurchaseOrder>)
    requires incoming != []
    ensures Apply(t, Ops(IncomingActions(existing, incoming)))
         == ExecAction(Apply(t, Ops(IncomingActions(existing, incoming[..|incoming| - 1]))),
                       IncomingAction(existing, incoming[|incoming| - 1]))
  {
    var init := IncomingActions(existing, incoming[..|incoming| - 1]);
    var a := IncomingAction(existing, incoming[|incoming| - 1]);
    OpsConcat(init, AsSeq(a));
    ApplyConcat(t, Ops(init), Ops(AsSeq(a)));
    if a.Some? {
      assert Ops(AsSeq(a))[..0] == [];
    } else {
      assert Ops(AsSeq(a)) == [];
    }
  }

  lemma NumberSetSnoc(orders: seq<PurchaseOrder>, o: PurchaseOrder)
    ensures NumberSet(orders + [o]) == NumberSet(orders) + {o.number}
  {
    var s := orders + [o];
    assert forall x :: x in s <==> x in orders || x == o;
  }

  lemma LastNumberFresh(incoming: seq<PurchaseOrder>)
    requires incoming != [] && DistinctNumbers(incoming)
    ensures incoming[|incoming| - 1].number !in NumberSet(incoming[..|incoming| - 1])
  {
    var init := incoming[..|incoming| - 1];
    forall o | o in init ensures o.number != incoming[|incoming| - 1].number {
      var i :| 0 <= i < |init| && init[i] == o;
      assert incoming[i] == o;
    }
  }

  /**
    With distinct numbers in the feed, each incoming order decides its own
    key, independently of the others, and no other key is touched.
  */
  lemma {:induction false} IncomingPhase(t: Table, existing: seq<PurchaseOrder>, incoming: seq<PurchaseOrder>)
    requires DistinctNumbers(incoming)
    ensures var r := Apply(t, Ops(IncomingActions(existing, incoming)));
            && (forall k :: k !in NumberSet(incoming) ==> Lookup(r, k) == Lookup(t, k))
            && (forall o :: o in incoming ==>
                  Lookup(r, o.number) == Lookup(ExecAction(t, IncomingAction(existing, o)), o.number))
    decreases |incoming|
  {
    if incoming != [] {
      var init := incoming[..|incoming| - 1];
      var last := incoming[|incoming| - 1];
      var a := IncomingAction(existing, last);
      var r0 := Apply(t, Ops(IncomingActions(existing, init)));
      var r := Apply(t, Ops(IncomingActions(existing, incoming)));
      assert DistinctNumbers(init);
      IncomingPhase(t, existing, init);
      IncomingActionsStep(t, existing, incoming);
      assert incoming == init + [last];
      NumberSetSnoc(init, last);
      LastNumberFresh(incoming);
      forall k | k !in NumberSet(incoming) ensures Lookup(r, k) == Lookup(t, k) {
        ExecActionOtherKey(r0, a, k);
      }
      forall o | o in incoming
        ensures Lookup(r, o.number) == Lookup(ExecAction(t, IncomingAction(existing, o)), o.number)
      {
        if o == last {
          ExecActionSameKey(r0, t, a, last.number);
        } else {
          assert o in init;
          ExecActionOtherKey(r0, a, o.number);
        }
      }
    }
  }

  /** The scan answers `find` exactly as the table would. */
  lemma FindInScan(t: Table, existing: seq<PurchaseOrder>, key: string)
    requires ScanOf(t, existing)
    ensures Find(existing, key) == Lookup(t, key)
  {
    var r := Find(existing, key);
    if r.Some? {
      var i :| 0 <= i < |existing| && existing[i] == r.value && r.value.number == key
               && forall j :: 0 <= j < i ==> existing[j].number != key;
    }
  }

  /** What a completed run leaves under the number of incoming order `o`, given the table `t` it started from. */
  function Outcome(t: Table, o: PurchaseOrder): Option<PurchaseOrder> {
    if o.status == Complete then None
    else if o.number in t && t[o.number].status == o.status then Some(t[o.number])
    else Some(o)
  }

  /** The absence deletions keep exactly the stored keys the feed still lists. */
  lemma DeletionPhase(t: Table, existing: seq<PurchaseOrder>, incoming: seq<PurchaseOrder>)
    requires ScanOf(t, existing)
    ensures forall k :: Lookup(Apply(t, Ops(DeletionActions(FindOrdersToDelete(existing, incoming)))), k)
                     == if k in NumberSet(incoming) then Lookup(t, k) else None
  {
    var toDelete := FindOrdersToDelete(existing, incoming);
    ApplyDeletions(t, toDelete);
    forall k ensures Lookup(t - NumberSet(toDelete), k) == if k in NumberSet(incoming) then Lookup(t, k) else None {
      if k in t && k !in NumberSet(incoming) {
        var i :| 0 <= i < |existing| && existing[i].number == k;
        assert existing[i] in toDelete;
      }
    }
  }

  /** One incoming order's call, made on any table that agrees with `t` on its key. */
  lemma IncomingOutcome(t: Table, existing: seq<PurchaseOrder>, m: Table, o: PurchaseOrder)
    requires ScanOf(t, existing)
    requires Lookup(m, o.number) == Lookup(t, o.number)
    ensures Lookup(ExecAction(m, IncomingAction(existing, o)), o.number) == Outcome(t, o)
  {
    FindInScan(t, existing, o.number);
    var a := IncomingAction(existing, o);
    if a.Some? {
      ExecLookup(m, a.value.op, o.number);
    }
  }

  /** Key by key, the table a completed run leaves behind. */
  lemma RunStoreLookup(t: Table, existing: seq<PurchaseOrder>, incoming: seq<PurchaseOrder>)
    requires ScanOf(t, existing)
    requires DistinctNumbers(incoming)
    ensures var r := RunStore(t, existing, incoming);
            && (forall k :: k !in NumberSet(incoming) ==> k !in r)
            && (forall o :: o in incoming ==> Lookup(r, o.number) == Outcome(t, o))
  {
    var d := DeletionActions(FindOrdersToDelete(existing, incoming));
    var inc := IncomingActions(existing, incoming);
    OpsConcat(d, inc);
    ApplyConcat(t, Ops(d), Ops(inc));
    DeletionPhase(t, existing, incoming);
    var m1 := Apply(t, Ops(d));
    IncomingPhase(m1, existing, incoming);
    var r := RunStore(t, existing, incoming);
    assert r == Apply(m1, Ops(inc));
    forall k | k !in NumberSet(incoming) ensures k !in r {
      assert Lookup(r, k) == Lookup(m1, k);
    }
    forall o | o in incoming ensures Lookup(r, o.number) == Outcome(t, o) {
      IncomingOutcome(t, existing, m1, o);
    }
  }

  /**
    After a completed run over a feed with distinct numbers, the table holds
    exactly the feed's non-complete orders, each with its feed status; an
    order whose status did not change keeps its stored item, every other one
    holds the incoming fields. In particular no stored item is complete.
  */
  lemma ConvergedStore(t: Table, existing: seq<PurchaseOrder>, incoming: seq<PurchaseOrder>)
    requires ScanOf(t, existing)
    requires DistinctNumbers(incoming)
    ensures var r := RunStore(t, existing, incoming);
            && r.Keys == (set o | o in incoming && o.status != Complete :: o.number)
            && (forall o :: o in incoming && o.status != Complete ==>
                  r[o.number] == if o.number in t && t[o.number].status == o.status then t[o.number] else o)
            && (forall k :: k in r ==> r[k].number == k && r[k].status != Complete)
  {
    RunStoreLookup(t, existing, incoming);
    var r := RunStore(t, existing, incoming);
    forall k | k in r ensures exists o :: o in incoming && o.status != Complete && o.number == k {
      var o :| o in incoming && o.number == k;
      assert Lookup(r, o.number) == Outcome(t, o);
    }
    forall k | k in r ensures r[k].number == k && r[k].status != Complete {
      var o :| o in incoming && o.status != Complete && o.number == k;
      assert Lookup(r, o.number) == Outcome(t, o);
    }
  }

  /** An incoming order that already matches the table makes no store call and no entry. */
  lemma QuietIncoming(existing: seq<PurchaseOrder>, incoming: seq<PurchaseOrder>)
    requires forall o :: o in incoming ==> IncomingAction(existing, o) == None
    ensures IncomingActions(existing, incoming) == []
  {
  }

  /**
    Idempotence: scanning the table a completed run left behind and running
    again with the same feed makes no store call, so the second run reports
    `null`.
  */
  lemma RerunIsNoop(t: Table, existing: seq<PurchaseOrder>, incoming: seq<PurchaseOrder>, rescan: seq<PurchaseOrder>)
    requires ScanOf(t, existing)
    requires DistinctNumbers(incoming)
    requires ScanOf(RunStore(t, existing, incoming), rescan)
    ensures Plan(rescan, incoming) == []
    ensures NonEmpty(Changes(Plan(rescan, incoming))) == None
  {
    var r := RunStore(t, existing, incoming);
    RunStoreLookup(t, existing, incoming);
    NothingToDeleteOnRescan(r, rescan, incoming);
    forall o | o in incoming ensures IncomingAction(rescan, o) == None {
      QuietOnRescan(t, r, rescan, o);
    }
    QuietIncoming(rescan, incoming);
  }

  lemma NothingToDeleteOnRescan(r: Table, rescan: seq<PurchaseOrder>, incoming: seq<PurchaseOrder>)
    requires ScanOf(r, rescan)
    requires forall k :: k !in NumberSet(incoming) ==> k !in r
    ensures FindOrdersToDelete(rescan, incoming) == []
  {
  }

  lemma QuietOnRescan(t: Table, r: Table, rescan: seq<PurchaseOrder>, o: PurchaseOrder)
    requires ScanOf(r, rescan)
    requires Lookup(r, o.number) == Outcome(t, o)
    ensures IncomingAction(rescan, o) == None
  {
    FindInScan(r, rescan, o.number);
  }

  // ---------------------------------------------------------------------
  // The notification text

  const NoUpdatesMessage := "No purchase orders were updated."
  const MessageHeader := "The following purchase order(s) have had changes:\n\n"

  /** The text of one entry, without its line break. */
  function LineText(u: Change): string {
    match u.oldStatus
    case None =>
      "- Purchase order number " + u.number + " has been created with a status of " + u.newStatus
      + ". Last modified on: " + u.lastModifiedOn + " by " + u.lastModifiedBy + "."
    case Some(previous) =>
      if u.newStatus == Deleted then
        "- Purchase order number " + u.number + " has been deleted (previous status: " + previous
        + "). Last modified on: " + u.lastModifiedOn + " by " + u.lastModifiedBy + "."
      else
        "- Purchase order number " + u.number + " has changed status from " + previous + " to " + u.newStatus
        + ". Last modified on: " + u.lastModifiedOn + " by " + u.lastModifiedBy + "."
  }

  function Lines(updates: seq<Change>): string {
    if updates == [] then ""
    else Lines(updates[..|updates| - 1]) + LineText(updates[|updates| - 1]) + "\n"
  }

  /** Appending the line of entry `i` to the message of the entries before it. */
  lemma LinesSnoc(header: string, updates: seq<Change>, i: nat)
    requires i < |updates|
    ensures header + Lines(updates[..i + 1]) == header + Lines(updates[..i]) + LineText(updates[i]) + "\n"
  {
    assert updates[..i + 1][..i] == updates[..i];
  }

  /** The message `createMessage` builds. */
  function Message(updates: seq<Change>): string {
    if |updates| == 0 then NoUpdatesMessage else MessageHeader + Lines(updates)
  }

  predicate NoLineBreak(s: string) {
    '\n' !in s
  }

  predicate SingleLineFields(u: Change) {
    && NoLineBreak(u.number) && NoLineBreak(u.newStatus)
    && NoLineBreak(u.lastModifiedOn) && NoLineBreak(u.lastModifiedBy)
    && (u.oldStatus.Some? ==> NoLineBreak(u.oldStatus.value))
  }

  lemma LineTextIsOneLine(u: Change)
    requires SingleLineFields(u)
    ensures NoLineBreak(LineText(u))
  {
  }

  /** One line per entry: the entries' texts contribute exactly one line break each. */
  lemma {:induction false} LinesCount(updates: seq<Change>)
    requires forall u :: u in updates ==> SingleLineFields(u)
    ensures multiset(Lines(updates))['\n'] == |updates|
  {
    if updates != [] {
      var init := updates[..|updates| - 1];
      var last := updates[|updates| - 1];
      LinesCount(init);
      LineTextIsOneLine(last);
      assert multiset(LineText(last))['\n'] == 0;
      assert multiset(Lines(updates)) == multiset(Lines(init)) + multiset(LineText(last)) + multiset("\n");
    }
  }

  /**
    The message is the fixed text for no entries, and otherwise the header
    followed by exactly one line per entry, the last one ending the message.
  */
  lemma MessageLineCount(updates: seq<Change>)
    requires forall u :: u in updates ==> SingleLineFields(u)
    ensures updates == [] ==> Message(updates) == NoUpdatesMessage
    ensures updates != [] ==>
              var m := Message(updates);
              && |m| > |MessageHeader| && m[..|MessageHeader|] == MessageHeader
              && multiset(m[|MessageHeader|..])['\n'] == |updates|
              && m[|m| - 1] == '\n'
  {
    if updates != [] {
      LinesCount(updates);
      var m := Message(updates);
      assert m == MessageHeader + Lines(updates);
      assert m[|MessageHeader|..] == Lines(updates);
    }
  }
}
