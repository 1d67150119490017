/**
  The InfraspeakToUnleashedStockLevels job: the stock movements recorded on
  an Infraspeak failure become the lines of one completed Unleashed sales
  order, posted under a fresh guid.
*/
module InfraspeakToUnleashedStockLevels {
  import opened Common
  import opened JsText
  import Seqs

  // ---------------------------------------------------------------------
  // getMaterialData

  /**
    An entry of the failure's `included` list: its `id` and its
    `attributes.warehouse_id` and `attributes.quantity`, `None` when missing.
  */
  datatype Included = Included(id: int, warehouseId: Option<int>, quantity: Option<int>)

  /** `material?.attributes?.quantity` is truthy: present and not zero. */
  predicate HasQuantity(e: Included) {
    e.quantity.Some? && e.quantity.value != 0
  }

  function Kept(): Included -> bool {
    (e: Included) => HasQuantity(e)
  }

  /** A pushed record; `materialCode` is `None` when the material has no code. */
  datatype MaterialData = MaterialData(materialCode: Option<string>, warehouseId: Option<int>, quantity: int)

  /**
    `getMaterialCode(id)`: the code of a material (`None` when it has none),
    or the error when the request throws.
  */
  type CodeLookup = int -> Result<Option<string>, string>

  /** The record pushed for a kept entry once its code is known (only kept entries are pushed). */
  function RecordOf(e: Included, code: Option<string>): MaterialData {
    MaterialData(code, e.warehouseId, if e.quantity.Some? then e.quantity.value else 0)
  }

  /** `RecordOf` with the code the lookup answers, for an entry whose lookup succeeds. */
  function RecordWith(lookup: CodeLookup): Included -> MaterialData {
    (e: Included) => RecordOf(e, if lookup(e.id).Success? then lookup(e.id).value else None)
  }

  /** What `getMaterialData` resolves to for these entries: the records, or the first lookup error. */
  function MaterialDataOf(included: seq<Included>, lookup: CodeLookup): Result<seq<MaterialData>, string> {
    if included == [] then Success([])
    else
      var last := included[|included| - 1];
      match MaterialDataOf(included[..|included| - 1], lookup)
      case Failure(e) => Failure(e)
      case Success(records) =>
        if !HasQuantity(last) then Success(records)
        else
          match lookup(last.id)
          case Failure(e) => Failure(e)
          case Success(code) => Success(records + [RecordOf(last, code)])
  }

  /**
    The answer of the failure fetch: its `included` list, `None` when the
    body has none, or the error when the request throws.
  */
  type FailureBody = Result<Option<seq<Included>>, string>

  /** What `for...of` throws on a body without `included`. */
  const NotIterable := "TypeError: stockMovements.included is not iterable"

  /** What `getMaterialData` resolves to for a fetched failure body. */
  function FetchedMaterialData(fetched: FailureBody, lookup: CodeLookup): Result<seq<MaterialData>, string> {
    match fetched
    case Failure(e) => Failure(e)
    case Success(None) => Failure(NotIterable)
    case Success(Some(included)) => MaterialDataOf(included, lookup)
  }

  /**
    `getMaterialData`: push a record for each entry with a quantity, in
    order. A refused fetch or a body without `included` throws before any
    entry is read.
  */
  method GetMaterialData(fetched: FailureBody, lookup: CodeLookup) returns (r: Result<seq<MaterialData>, string>)
    ensures fetched.Failure? ==> r == Failure(fetched.error)
    ensures fetched == Success(None) ==> r == Failure(NotIterable)
    ensures fetched.Success? && fetched.value.Some? ==> r == MaterialDataOf(fetched.value.value, lookup)
  {
    if fetched.Failure? {
      return Failure(fetched.error);
    }
    if fetched.value.None? {
      return Failure(NotIterable);
    }
    var included := fetched.value.value;
    var stockMovement: seq<MaterialData> := [];
    for i := 0 to |included|
      invariant MaterialDataOf(included[..i], lookup) == Success(stockMovement)
    {
      assert included[..i + 1][..i] == included[..i];
      var material := included[i];
      if HasQuantity(material) {
        var materialCode := lookup(material.id);
        if materialCode.Failure? {
          MaterialDataFailurePersists(included, lookup, i + 1);
          return Failure(materialCode.error);
        }
        stockMovement := stockMovement + [RecordOf(material, materialCode.value)];
      }
    }
    assert included[..|included|] == included;
    return Success(stockMovement);
  }

  /** Once a lookup fails, the whole run fails with its error. */
  lemma {:induction false} MaterialDataFailurePersists(included: seq<Included>, lookup: CodeLookup, n: nat)
    requires 0 < n <= |included|
    requires MaterialDataOf(included[..n - 1], lookup).Success?
    requires HasQuantity(included[n - 1]) && lookup(included[n - 1].id).Failure?
    ensures MaterialDataOf(included, lookup) == Failure(lookup(included[n - 1].id).error)
    decreases |included|
  {
    if n < |included| {
      assert included[..|included| - 1][..n - 1] == included[..n - 1];
      MaterialDataFailurePersists(included[..|included| - 1], lookup, n);
    } else {
      assert included[..n - 1] == included[..|included| - 1];
    }
  }

  /** `getMaterialData` succeeds exactly when every entry with a quantity has its code looked up. */
  lemma {:induction false} MaterialDataSucceeds(included: seq<Included>, lookup: CodeLookup)
    ensures MaterialDataOf(included, lookup).Success?
            <==> forall i :: 0 <= i < |included| && HasQuantity(included[i]) ==> lookup(included[i].id).Success?
    decreases |included|
  {
    if included != [] {
      var n := |included| - 1;
      MaterialDataSucceeds(included[..n], lookup);
      assert forall i :: 0 <= i < n ==> included[i] == included[..n][i];
    }
  }

  /**
    On success, `getMaterialData` returns one record per entry with a
    quantity, in order, carrying its warehouse, quantity and code.
  */
  lemma {:induction false} MaterialDataIsKeptEntries(included: seq<Included>, lookup: CodeLookup)
    requires MaterialDataOf(included, lookup).Success?
    ensures MaterialDataOf(included, lookup).value == Seqs.Map(Seqs.Filter(included, Kept()), RecordWith(lookup))
    decreases |included|
  {
    if included != [] {
      var n := |included| - 1;
      var init, last := included[..n], included[n];
      MaterialDataIsKeptEntries(init, lookup);
      assert included == init + [last];
      Seqs.FilterSnoc(init, last, Kept());
      var kept := Seqs.Filter(init, Kept());
      if HasQuantity(last) {
        Seqs.MapConcat(kept, [last], RecordWith(lookup));
        Seqs.MapSingle(last, RecordWith(lookup));
      } else {
        assert kept + [] == kept;
      }
    }
  }

  // ---------------------------------------------------------------------
  // createSalesOrderPayload

  /** Every line orders this product, whatever the material moved. */
  const LineProductCode: string := "00.0130-8383"

  datatype SalesOrderLine = SalesOrderLine(
    discountRate: int, lineNumber: int, lineTax: int, lineTotal: int,
    orderQuantity: int, productCode: string, unitPrice: int)

  /**
    The sales order posted to Unleashed. `exchangeRate` is the text
    `JSON.stringify` writes for the literal `0.10`; the money fields the job sets to zero are
    integers here.
  */
  datatype SalesOrder = SalesOrder(
    customerCode: string,
    exchangeRate: string,
    guid: string,
    orderStatus: string,
    lines: seq<SalesOrderLine>,
    salespersonGuid: string,
    subTotal: int,
    taxRate: int,
    taxTotal: int,
    total: int,
    warehouseCode: string)

  function Line(item: MaterialData, index: nat): SalesOrderLine {
    SalesOrderLine(0, index + 1, 0, 0, item.quantity, LineProductCode, 0)
  }

  /** `SalesOrderLines.map((item, index) => ...)`. */
  function SalesOrderLines(items: seq<MaterialData>): (r: seq<SalesOrderLine>)
    ensures |r| == |items|
    ensures forall i :: 0 <= i < |r| ==>
              && r[i].lineNumber == i + 1
              && r[i].orderQuantity == items[i].quantity
              && r[i].productCode == LineProductCode
              && r[i].discountRate == 0 && r[i].lineTax == 0 && r[i].lineTotal == 0 && r[i].unitPrice == 0
  {
    seq(|items|, i requires 0 <= i < |items| => Line(items[i], i))
  }

  /** `createSalesOrderPayload`. */
  function CreateSalesOrderPayload(newGuid: string, items: seq<MaterialData>, warehouseId: string): (r: SalesOrder)
    ensures r.guid == newGuid && r.warehouseCode == warehouseId
    ensures r.orderStatus == "Completed" && r.customerCode == "Bank West"
    ensures r.subTotal == 0 && r.taxRate == 0 && r.taxTotal == 0 && r.total == 0
    ensures r.lines == SalesOrderLines(items)
  {
    SalesOrder("Bank West", "0.1", newGuid, "Completed", SalesOrderLines(items),
               "5d71bd89-904d-41f3-837d-47787d277894", 0, 0, 0, 0, warehouseId)
  }

  /** The quantity a list of lines orders. */
  function OrderedQuantity(lines: seq<SalesOrderLine>): int {
    if lines == [] then 0 else OrderedQuantity(lines[..|lines| - 1]) + lines[|lines| - 1].orderQuantity
  }

  /** The quantity a list of stock movements moves. */
  function MovedQuantity(items: seq<MaterialData>): int {
    if items == [] then 0 else MovedQuantity(items[..|items| - 1]) + items[|items| - 1].quantity
  }

  lemma {:induction false} SameQuantities(lines: seq<SalesOrderLine>, items: seq<MaterialData>)
    requires |lines| == |items|
    requires forall i :: 0 <= i < |lines| ==> lines[i].orderQuantity == items[i].quantity
    ensures OrderedQuantity(lines) == MovedQuantity(items)
    decreases |lines|
  {
    if lines != [] {
      SameQuantities(lines[..|lines| - 1], items[..|items| - 1]);
    }
  }

  /**
    The lines are numbered 1, 2, ... without gaps, and together order
    exactly the quantity the stock movements moved.
  */
  lemma SalesOrderMatchesMovements(newGuid: string, items: seq<MaterialData>, warehouseId: string)
    ensures var order := CreateSalesOrderPayload(newGuid, items, warehouseId);
            && (forall i, j :: 0 <= i < j < |order.lines| ==> order.lines[i].lineNumber < order.lines[j].lineNumber)
            && (forall i :: 0 <= i < |order.lines| ==> 1 <= order.lines[i].lineNumber <= |items|)
            && OrderedQuantity(order.lines) == MovedQuantity(items)
  {
    SameQuantities(SalesOrderLines(items), items);
  }

  // ---------------------------------------------------------------------
  // handler

  datatype Response = Response(statusCode: int, body: string)

  const Succeeded: Response := Response(200, "{\"message\":\"Success\"}")
  const Failed: Response := Response(500, "{\"message\":\"Error handling webhook event\"}")

  /** A POST of a sales order to Unleashed. */
  datatype SalesOrderPost = SalesOrderPost(endpoint: string, payload: SalesOrder)

  const SalesOrdersPath: string := "SalesOrders/"

  /** The handler gets as far as posting: the records exist, and the first has a warehouse. */
  predicate Postable(data: Result<seq<MaterialData>, string>) {
    data.Success? && |data.value| > 0 && data.value[0].warehouseId.Some?
  }

  /**
    `handler`: build the sales order from the failure's movements, in the
    warehouse of the first one, under `newGuid`, and post it to
    `SalesOrders/<newGuid>`. A failure fetch that throws, or a body without
    `included`, answers 500. Reading the first record of an empty list, or
    `toString` of a missing warehouse, throws and answers 500; the post's
    own answer does not matter, since its errors come back as `[]`, which
    is truthy.
  */
  method Handler(fetched: FailureBody, lookup: CodeLookup, newGuid: string)
    returns (response: Response, posted: Option<SalesOrderPost>)
    ensures (fetched.Failure? || fetched.value.None?) ==> response == Failed && posted == None
    ensures var data := FetchedMaterialData(fetched, lookup);
            && (response == Succeeded <==> Postable(data))
            && (response == Succeeded || response == Failed)
            && (posted.Some? <==> Postable(data))
            && (Postable(data) ==>
                  posted.value == SalesOrderPost(
                    SalesOrdersPath + newGuid,
                    CreateSalesOrderPayload(newGuid, data.value, DecimalString(data.value[0].warehouseId.value))))
  {
    var stockMovements := GetMaterialData(fetched, lookup);
    if stockMovements.Failure? || |stockMovements.value| == 0 || stockMovements.value[0].warehouseId.None? {
      return Failed, None;
    }
    var warehouseId := DecimalString(stockMovements.value[0].warehouseId.value);
    var payload := CreateSalesOrderPayload(newGuid, stockMovements.value, warehouseId);
    posted := Some(SalesOrderPost(SalesOrdersPath + newGuid, payload));
    response := Succeeded;
  }

  /**
    A posted order is filed under the guid it carries, and its warehouse
    code reads back as the first movement's warehouse.
  */
  lemma PostedOrderConsistent(data: seq<MaterialData>, newGuid: string)
    requires |data| > 0 && data[0].warehouseId.Some?
    ensures var order := CreateSalesOrderPayload(newGuid, data, DecimalString(data[0].warehouseId.value));
            && (SalesOrdersPath + newGuid)[|SalesOrdersPath|..] == order.guid
            && ParseInt(order.warehouseCode) == data[0].warehouseId
  {
    ParseIntOfDecimalString(data[0].warehouseId.value, []);
    assert DecimalString(data[0].warehouseId.value) + [] == DecimalString(data[0].warehouseId.value);
  }
}
