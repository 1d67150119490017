/**
  The `UnleashedToInfraspeak` job: it flattens Unleashed's stock on hand into
  one row per (product, warehouse) pair, then for each row looks the
  material and its quantity up in Infraspeak, page by page, and posts at
  most one stock movement that makes Infraspeak's quantity equal Unleashed's.

  Each fetch is an input: the pages an endpoint answers, page 1 first. A
  page the scan would request beyond the given ones is a request that
  throws.
*/
module UnleashedToInfraspeak {
  import opened Common
  import opened JsText
  import Seqs

  const FetchFailed := "HTTP error"
  const NotIterable := "TypeError: data is not iterable"

  /** One answer of a paged endpoint; `data == None` when the body's `data` is not an array. */
  datatype Page<T> = Page(data: Option<seq<T>>, hasNext: bool)

  // ---------------------------------------------------------------------
  // Page scans

  /** The elements of one page; a `data` that is not an array has none. */
  function PageItems<T>(page: Page<T>): seq<T> {
    if page.data.Some? then page.data.value else []
  }

  /**
    A scan over the pages, in order, for the first element satisfying
    `matches`: it stops at that element, or after the first page without a
    `next` link (no element), or fails when a request fails. A `data` that
    is not an array reads as no element when `lenient`, and throws otherwise.
  */
  function FindAcross<T>(pages: seq<Page<T>>, matches: T -> bool, lenient: bool): Result<Option<T>, string>
    decreases |pages|
  {
    if pages == [] then Failure(FetchFailed)
    else if pages[0].data.None? && !lenient then Failure(NotIterable)
    else
      match Seqs.FirstWhere(PageItems(pages[0]), matches)
      case Some(x) => Success(Some(x))
      case None => if pages[0].hasNext then FindAcross(pages[1..], matches, lenient) else Success(None)
  }

  /** The scan from page `p` on stops at the first match on that page. */
  lemma FindAcrossHit<T>(pages: seq<Page<T>>, matches: T -> bool, lenient: bool, p: nat, i: nat)
    requires p < |pages| && (lenient || pages[p].data.Some?)
    requires i < |PageItems(pages[p])| && matches(PageItems(pages[p])[i])
    requires forall j :: 0 <= j < i ==> !matches(PageItems(pages[p])[j])
    ensures FindAcross(pages[p..], matches, lenient) == Success(Some(PageItems(pages[p])[i]))
  {
    Seqs.FirstWhereAt(PageItems(pages[p]), matches, i);
  }

  /** Without a match on page `p`, the scan goes on to the next page if there is a `next` link. */
  lemma FindAcrossMiss<T>(pages: seq<Page<T>>, matches: T -> bool, lenient: bool, p: nat)
    requires p < |pages| && (lenient || pages[p].data.Some?)
    requires forall j :: 0 <= j < |PageItems(pages[p])| ==> !matches(PageItems(pages[p])[j])
    ensures FindAcross(pages[p..], matches, lenient)
         == if pages[p].hasNext then FindAcross(pages[p + 1..], matches, lenient) else Success(None)
  {
    assert pages[p..][1..] == pages[p + 1..];
  }

  /** The elements of the pages a scan reads when no element matches, in order. */
  function ReadItems<T>(pages: seq<Page<T>>, lenient: bool): seq<T>
    decreases |pages|
  {
    if pages == [] || (pages[0].data.None? && !lenient) then []
    else PageItems(pages[0]) + (if pages[0].hasNext then ReadItems(pages[1..], lenient) else [])
  }

  /**
    The paged scan is a `find` over everything it read: when it succeeds it
    returns the first match of the read elements, and it fails only when
    none of the elements it could read matched.
  */
  lemma {:induction false} FindAcrossIsFirstMatch<T>(pages: seq<Page<T>>, matches: T -> bool, lenient: bool)
    ensures var r := FindAcross(pages, matches, lenient);
            && (r.Success? ==> r.value == Seqs.FirstWhere(ReadItems(pages, lenient), matches))
            && (r.Failure? ==> Seqs.FirstWhere(ReadItems(pages, lenient), matches).None?)
    decreases |pages|
  {
    if pages != [] && !(pages[0].data.None? && !lenient) {
      var items := PageItems(pages[0]);
      var rest := if pages[0].hasNext then ReadItems(pages[1..], lenient) else [];
      Seqs.FirstWhereConcat(items, rest, matches);
      if pages[0].hasNext {
        FindAcrossIsFirstMatch(pages[1..], matches, lenient);
      }
    }
  }

  // ---------------------------------------------------------------------
  // getMaterialIdFromInfraspeak

  /** The `parent_id` attribute: `null`, absent, or a folder id. */
  datatype ParentRef = NullParent | NoParent | Parent(id: string)

  /** An Infraspeak material, reduced to what the lookup reads; `code == None` when absent. */
  datatype Material = Material(id: string, code: Option<string>, parent: ParentRef)

  /** The material's code, upper-cased and trimmed, is `productCode`, and its `parent_id` is not `null`. */
  predicate MaterialMatches(productCode: string, m: Material) {
    m.code.Some? && Trim(ToUpper(m.code.value)) == productCode && m.parent != NullParent
  }

  function MatchesCode(productCode: string): Material -> bool {
    m => MaterialMatches(productCode, m)
  }

  /** The id the lookup returns: the first matching material's, `undefined` (`None`) when there is none. */
  function MaterialIdOf(r: Result<Option<Material>, string>): Result<Option<string>, string> {
    match r
    case Failure(e) => Failure(e)
    case Success(m) => Success(if m.Some? then Some(m.value.id) else None)
  }

  /**
    The `for...of` loop over one page of materials: the first material that
    matches, at the first index that does.
  */
  method FindOnPage(materialAll: seq<Material>, productCode: string) returns (found: Option<Material>)
    ensures found.None? <==> forall j :: 0 <= j < |materialAll| ==> !MatchesCode(productCode)(materialAll[j])
    ensures found.Some? ==> exists i :: 0 <= i < |materialAll| && materialAll[i] == found.value
                                        && MaterialMatches(productCode, found.value)
                                        && forall j :: 0 <= j < i ==> !MatchesCode(productCode)(materialAll[j])
  {
    for i := 0 to |materialAll|
      invariant forall j :: 0 <= j < i ==> !MaterialMatches(productCode, materialAll[j])
    {
      var material := materialAll[i];
      if MaterialMatches(productCode, material) {
        return Some(material);
      }
    }
    return None;
  }

  /** `getMaterialIdFromInfraspeak`: the paged `materials/all` scan with early return. */
  method GetMaterialIdFromInfraspeak(pages: seq<Page<Material>>, productCode: string)
    returns (r: Result<Option<string>, string>)
    ensures r == MaterialIdOf(FindAcross(pages, MatchesCode(productCode), true))
  {
    var pageNumber := 0;
    while true
      invariant pageNumber <= |pages|
      invariant FindAcross(pages[pageNumber..], MatchesCode(productCode), true)
             == FindAcross(pages, MatchesCode(productCode), true)
      decreases |pages| - pageNumber
    {
      if pageNumber == |pages| {
        return Failure(FetchFailed);
      }
      var response := pages[pageNumber];
      var materialAll := if response.data.Some? then response.data.value else [];
      assert materialAll == PageItems(pages[pageNumber]);
      var found := FindOnPage(materialAll, productCode);
      if found.Some? {
        var i :| 0 <= i < |materialAll| && materialAll[i] == found.value
                 && forall j :: 0 <= j < i ==> !MatchesCode(productCode)(materialAll[j]);
        FindAcrossHit(pages, MatchesCode(productCode), true, pageNumber, i);
        return Success(Some(found.value.id));
      }
      FindAcrossMiss(pages, MatchesCode(productCode), true, pageNumber);
      if !response.hasNext {
        return Success(None);
      }
      pageNumber := pageNumber + 1;
    }
  }

  // ---------------------------------------------------------------------
  // getMaterialQuantitiesFromInfraspeak

  /**
    A `warehouses/material-quantities` row. The ids are numbers or absent;
    `stockQuantity` is the text `parseInt` reads (`"undefined"` when absent).
  */
  datatype QuantityRow = QuantityRow(materialId: Option<int>, warehouseId: Option<int>, stockQuantity: string)

  /** `material_id === materialId && warehouse_id === warehouseId`; `NaN` (`None`) equals nothing. */
  predicate RowMatches(materialId: int, warehouseId: Option<int>, row: QuantityRow) {
    row.materialId == Some(materialId) && warehouseId.Some? && row.warehouseId == warehouseId
  }

  function MatchesIds(materialId: int, warehouseId: Option<int>): QuantityRow -> bool {
    row => RowMatches(materialId, warehouseId, row)
  }

  /** `parseInt(stock_quantity, 10) || 0`. */
  function StockQuantity(row: QuantityRow): (q: int)
    ensures q != 0 ==> ParseInt(row.stockQuantity) == Some(q)
    ensures q == 0 ==> ParseInt(row.stockQuantity) in {None, Some(0)}
  {
    match ParseInt(row.stockQuantity)
    case Some(n) => n
    case None => 0
  }

  /** The quantity the lookup returns: the first matching row's, 0 when there is none. */
  function QuantityOf(r: Result<Option<QuantityRow>, string>): Result<int, string> {
    match r
    case Failure(e) => Failure(e)
    case Success(row) => Success(if row.Some? then StockQuantity(row.value) else 0)
  }

  /** `getMaterialQuantitiesFromInfraspeak`: the paged scan; iterating a missing `data` throws. */
  method GetMaterialQuantitiesFromInfraspeak(pages: seq<Page<QuantityRow>>, materialId: int, warehouseId: Option<int>)
    returns (r: Result<int, string>)
    ensures r == QuantityOf(FindAcross(pages, MatchesIds(materialId, warehouseId), false))
  {
    var quantity := 0;
    var pageNumber := 0;
    while true
      invariant pageNumber <= |pages|
      invariant FindAcross(pages[pageNumber..], MatchesIds(materialId, warehouseId), false)
             == FindAcross(pages, MatchesIds(materialId, warehouseId), false)
      decreases |pages| - pageNumber
    {
      if pageNumber == |pages| {
        return Failure(FetchFailed);
      }
      var materialQuantityInfraspeak := pages[pageNumber];
      if materialQuantityInfraspeak.data.None? {
        assert pages[pageNumber..][0] == materialQuantityInfraspeak;
        return Failure(NotIterable);
      }
      var data := materialQuantityInfraspeak.data.value;
      for i := 0 to |data|
        invariant forall j :: 0 <= j < i ==> !MatchesIds(materialId, warehouseId)(data[j])
      {
        var qty := data[i];
        if qty.materialId == Some(materialId) && warehouseId.Some? && qty.warehouseId == warehouseId {
          FindAcrossHit(pages, MatchesIds(materialId, warehouseId), false, pageNumber, i);
          quantity := StockQuantity(qty);
          return Success(quantity);
        }
      }
      FindAcrossMiss(pages, MatchesIds(materialId, warehouseId), false, pageNumber);
      if !materialQuantityInfraspeak.hasNext {
        return Success(quantity);
      }
      pageNumber := pageNumber + 1;
    }
  }

  // ---------------------------------------------------------------------
  // The movement decision and its payloads

  const Add := "ADD"
  const Abate := "ABATE"

  /** A `stock-movement` body; `warehouseId == None` is a `NaN` id (serialised as `null`). */
  datatype Movement = Movement(action: string, warehouseId: Option<int>, materialId: int, quantity: int)

  /** `stockMovementPayloadAdd`. */
  function StockMovementPayloadAdd(materialId: int, quantity: int, warehouseId: Option<int>): Movement {
    Movement(Add, warehouseId, materialId, quantity)
  }

  /** `stockMovementPayloadConsume`. */
  function StockMovementPayloadConsume(materialId: int, quantity: int, warehouseId: Option<int>): Movement {
    Movement(Abate, warehouseId, materialId, quantity)
  }

  /** Infraspeak's quantity once a movement has been booked. */
  function Applied(quantity: int, m: Movement): int {
    if m.action == Add then quantity + m.quantity
    else if m.action == Abate then quantity - m.quantity
    else quantity
  }

  /**
    The delta decision: add the shortfall, abate the surplus, or nothing
    when the quantities agree. Booking the movement brings Infraspeak's
    quantity to Unleashed's, and the movement's quantity is always positive.
  */
  function MovementFor(materialId: int, warehouseId: Option<int>, quantityUnleashed: int, quantityInfraspeak: int)
    : (r: Option<Movement>)
    ensures r.None? <==> quantityUnleashed == quantityInfraspeak
    ensures r.Some? ==> && r.value.quantity > 0
                        && r.value.materialId == materialId && r.value.warehouseId == warehouseId
                        && (r.value.action == Add <==> quantityUnleashed > quantityInfraspeak)
                        && (r.value.action == Abate <==> quantityUnleashed < quantityInfraspeak)
                        && Applied(quantityInfraspeak, r.value) == quantityUnleashed
  {
    if quantityUnleashed > quantityInfraspeak then
      Some(StockMovementPayloadAdd(materialId, quantityUnleashed - quantityInfraspeak, warehouseId))
    else if quantityUnleashed < quantityInfraspeak then
      Some(StockMovementPayloadConsume(materialId, quantityInfraspeak - quantityUnleashed, warehouseId))
    else None
  }

  // ---------------------------------------------------------------------
  // postStockToInfraspeak

  /** A row of `processStockOnHand`; `warehouseId` is the warehouse code, `None` when none was found. */
  datatype StockRow = StockRow(productCode: string, averageCost: string, warehouseId: Option<string>, availableQty: int)

  /**
    What Infraspeak answers: the material and quantity pages, and whether it
    accepts the POST of a given movement (a refused POST throws).
  */
  datatype Infraspeak = Infraspeak(
    materialPages: seq<Page<Material>>,
    quantityPages: seq<Page<QuantityRow>>,
    accepts: Movement -> bool)

  /** A JavaScript truthiness test on a `parseInt` result: `NaN` and 0 are falsy. */
  predicate Truthy(n: Option<int>) {
    n.Some? && n.value != 0
  }

  /** `parseInt(x, 10)` of a value that may be `undefined` (which reads as `NaN`). */
  function ParseOptional(s: Option<string>): Option<int> {
    if s.Some? then ParseInt(s.value) else None
  }

  /** The material id `getMaterialIdFromInfraspeak` answers for the row's upper-cased, trimmed code. */
  function MaterialLookup(row: StockRow, infraspeak: Infraspeak): Result<Option<string>, string> {
    MaterialIdOf(FindAcross(infraspeak.materialPages, MatchesCode(Trim(ToUpper(row.productCode))), true))
  }

  /** The quantity `getMaterialQuantitiesFromInfraspeak` answers for the material in the row's warehouse. */
  function QuantityLookup(row: StockRow, infraspeak: Infraspeak, materialId: int): Result<int, string> {
    QuantityOf(FindAcross(infraspeak.quantityPages, MatchesIds(materialId, ParseOptional(row.warehouseId)), false))
  }

  /**
    The callback of `postStockToInfraspeak` for one row: the posted movement,
    or `null` (`None`) when the material is unknown, the quantities agree,
    or anything throws.
  */
  function PostOne(row: StockRow, infraspeak: Infraspeak): (r: Option<Movement>)
    ensures r.Some? ==> && r.value.quantity > 0
                        && (r.value.action == Add || r.value.action == Abate)
                        && r.value.warehouseId == ParseOptional(row.warehouseId)
                        && infraspeak.accepts(r.value)
  {
    var warehouseId := ParseOptional(row.warehouseId);
    match MaterialLookup(row, infraspeak)
    case Failure(_) => None
    case Success(materialId_) =>
      var materialId := ParseOptional(materialId_);
      if !Truthy(materialId) then None
      else
        match QuantityLookup(row, infraspeak, materialId.value)
        case Failure(_) => None
        case Success(quantityInfraspeak) =>
          var m := MovementFor(materialId.value, warehouseId, row.availableQty, quantityInfraspeak);
          if m.Some? && infraspeak.accepts(m.value) then m else None
  }

  /**
    Each way a row can fail yields no movement for it: the material lookup
    throws, the material id is missing or falsy, the quantity lookup
    throws, or the platform refuses the POST.
  */
  lemma PostOneNullPaths(row: StockRow, infraspeak: Infraspeak)
    ensures MaterialLookup(row, infraspeak).Failure? ==> PostOne(row, infraspeak) == None
    ensures MaterialLookup(row, infraspeak).Success? && !Truthy(ParseOptional(MaterialLookup(row, infraspeak).value))
            ==> PostOne(row, infraspeak) == None
    ensures var found := MaterialLookup(row, infraspeak);
            found.Success? && Truthy(ParseOptional(found.value))
            && QuantityLookup(row, infraspeak, ParseOptional(found.value).value).Failure?
            ==> PostOne(row, infraspeak) == None
    ensures var found := MaterialLookup(row, infraspeak);
            found.Success? && Truthy(ParseOptional(found.value))
            && QuantityLookup(row, infraspeak, ParseOptional(found.value).value).Success?
            && (var m := MovementFor(ParseOptional(found.value).value, ParseOptional(row.warehouseId), row.availableQty,
                                     QuantityLookup(row, infraspeak, ParseOptional(found.value).value).value);
                m.Some? && !infraspeak.accepts(m.value))
            ==> PostOne(row, infraspeak) == None
  {
  }

  /** A row whose material has a truthy id and whose quantities agree posts nothing. */
  lemma AgreeingRowPostsNothing(row: StockRow, infraspeak: Infraspeak, materialId: int)
    requires MaterialLookup(row, infraspeak).Success?
    requires ParseOptional(MaterialLookup(row, infraspeak).value) == Some(materialId) && materialId != 0
    requires QuantityLookup(row, infraspeak, materialId) == Success(row.availableQty)
    ensures PostOne(row, infraspeak) == None
  {
  }

  /**
    A posted movement is exactly the decision for the quantities read: with
    a truthy material id, a successful quantity lookup and an accepted POST,
    the result is `MovementFor` of the two quantities.
  */
  lemma PostOneIsDecision(row: StockRow, infraspeak: Infraspeak, materialId: int, quantityInfraspeak: int)
    requires MaterialLookup(row, infraspeak).Success?
    requires ParseOptional(MaterialLookup(row, infraspeak).value) == Some(materialId) && materialId != 0
    requires QuantityLookup(row, infraspeak, materialId) == Success(quantityInfraspeak)
    requires var m := MovementFor(materialId, ParseOptional(row.warehouseId), row.availableQty, quantityInfraspeak);
             m.Some? ==> infraspeak.accepts(m.value)
    ensures PostOne(row, infraspeak) == MovementFor(materialId, ParseOptional(row.warehouseId), row.availableQty, quantityInfraspeak)
  {
  }

  function PostOneWith(infraspeak: Infraspeak): StockRow -> Option<Movement> {
    row => PostOne(row, infraspeak)
  }

  /** `postStockToInfraspeak`: every row's result, with the `null`s dropped, in row order. */
  function PostStockToInfraspeak(stockToPost: seq<StockRow>, infraspeak: Infraspeak): (r: seq<Movement>)
    ensures |r| <= |stockToPost|
    ensures forall m :: m in r ==> m.quantity > 0 && infraspeak.accepts(m)
  {
    var results := Seqs.Map(stockToPost, PostOneWith(infraspeak));
    assert forall m :: Some(m) in results ==> m.quantity > 0 && infraspeak.accepts(m);
    Seqs.Somes(results)
  }

  /**
    Rows are handled independently: the result for a list of rows is the
    results for its two halves, one after the other, so a row that fails
    changes nothing for the others.
  */
  lemma PostStockConcat(a: seq<StockRow>, b: seq<StockRow>, infraspeak: Infraspeak)
    ensures PostStockToInfraspeak(a + b, infraspeak) == PostStockToInfraspeak(a, infraspeak) + PostStockToInfraspeak(b, infraspeak)
  {
    var f := PostOneWith(infraspeak);
    Seqs.MapConcat(a, b, f);
    Seqs.SomesConcat(Seqs.Map(a, f), Seqs.Map(b, f));
  }

  /** A single row yields its own result, or nothing when that result is `null`. */
  lemma PostStockSingle(row: StockRow, infraspeak: Infraspeak)
    ensures PostStockToInfraspeak([row], infraspeak)
         == if PostOne(row, infraspeak).Some? then [PostOne(row, infraspeak).value] else []
  {
    Seqs.MapSingle(row, PostOneWith(infraspeak));
    Seqs.SomesSingle(PostOne(row, infraspeak));
  }

  // ---------------------------------------------------------------------
  // fetchWarehouseCodes

  /** A `Warehouses` item. */
  datatype Warehouse = Warehouse(guid: string, warehouseCode: string)

  /** The code of the last warehouse whose Guid is `warehouseId`; `undefined` (`None`) when none is. */
  function LastWarehouseCode(warehouses: seq<Warehouse>, warehouseId: string): (r: Option<string>)
    ensures r.None? <==> forall i :: 0 <= i < |warehouses| ==> warehouses[i].guid != warehouseId
    ensures r.Some? ==> exists i :: 0 <= i < |warehouses| && warehouses[i].guid == warehouseId
                                    && r.value == warehouses[i].warehouseCode
                                    && forall j :: i < j < |warehouses| ==> warehouses[j].guid != warehouseId
  {
    if warehouses == [] then None
    else
      var last := warehouses[|warehouses| - 1];
      if last.guid == warehouseId then Some(last.warehouseCode)
      else
        var r := LastWarehouseCode(warehouses[..|warehouses| - 1], warehouseId);
        if r.Some? then
          var i :| 0 <= i < |warehouses| - 1 && warehouses[i].guid == warehouseId
                   && r.value == warehouses[i].warehouseCode
                   && forall j :: i < j < |warehouses| - 1 ==> warehouses[j].guid != warehouseId;
          r
        else r
  }

  /** `fetchWarehouseCodes`: the loop keeps overwriting the code, so the last match wins. */
  method FetchWarehouseCodes(warehouses: seq<Warehouse>, warehouseId: string) returns (warehouseCode: Option<string>)
    ensures warehouseCode == LastWarehouseCode(warehouses, warehouseId)
  {
    warehouseCode := None;
    for i := 0 to |warehouses|
      invariant warehouseCode == LastWarehouseCode(warehouses[..i], warehouseId)
    {
      assert warehouses[..i + 1][..i] == warehouses[..i];
      if warehouseId == warehouses[i].guid {
        warehouseCode := Some(warehouses[i].warehouseCode);
      }
    }
    assert warehouses[..|warehouses|] == warehouses;
  }

  // ---------------------------------------------------------------------
  // processStockOnHand

  /** A `StockOnHand` item as `processStockOnHand` extracts it; the cost is passed through as text. */
  datatype StockItem = StockItem(productGuid: string, productCode: string, averageCost: string)

  /** An `AllWarehouses` item of a product. */
  datatype WarehouseQty = WarehouseQty(warehouseId: string, availableQty: int)

  /**
    The row pushed for a product and one of its warehouse entries, given the
    `Warehouses` list the code lookup reads.
  */
  function RowFor(item: StockItem, entry: WarehouseQty, warehouses: seq<Warehouse>): StockRow {
    StockRow(item.productCode, item.averageCost, LastWarehouseCode(warehouses, entry.warehouseId), entry.availableQty)
  }

  function RowWith(item: StockItem, warehouses: seq<Warehouse>): WarehouseQty -> StockRow {
    entry => RowFor(item, entry, warehouses)
  }

  /**
    The rows of one product, or the error that aborts the whole job: a
    failed `AllWarehouses` fetch has no `Items` to iterate, and a failed
    `Warehouses` fetch throws at the first entry's code lookup.
  */
  function ProductRows(item: StockItem, allWarehouses: string -> Option<seq<WarehouseQty>>,
                       warehouses: Option<seq<Warehouse>>): (r: Result<seq<StockRow>, string>)
    ensures r.Success? ==> allWarehouses(item.productGuid).Some?
                           && |r.value| == |allWarehouses(item.productGuid).value|
  {
    match allWarehouses(item.productGuid)
    case None => Failure(NotIterable)
    case Some(entries) =>
      if entries == [] then Success([])
      else if warehouses.None? then Failure(NotIterable)
      else Success(Seqs.Map(entries, RowWith(item, warehouses.value)))
  }

  /** The rows of all products, products in order and each product's entries in order. */
  function StockRows(items: seq<StockItem>, allWarehouses: string -> Option<seq<WarehouseQty>>,
                     warehouses: Option<seq<Warehouse>>): Result<seq<StockRow>, string>
  {
    if items == [] then Success([])
    else
      match StockRows(items[..|items| - 1], allWarehouses, warehouses)
      case Failure(e) => Failure(e)
      case Success(rows) =>
        match ProductRows(items[|items| - 1], allWarehouses, warehouses)
        case Failure(e) => Failure(e)
        case Success(more) => Success(rows + more)
  }

  /** `processStockOnHand`: nested loops pushing one row per product and warehouse entry. */
  method ProcessStockOnHand(items: seq<StockItem>, allWarehouses: string -> Option<seq<WarehouseQty>>,
                            warehouses: Option<seq<Warehouse>>)
    returns (r: Result<seq<StockRow>, string>)
    ensures r == StockRows(items, allWarehouses, warehouses)
  {
    var result: seq<StockRow> := [];
    for i := 0 to |items|
      invariant StockRows(items[..i], allWarehouses, warehouses) == Success(result)
    {
      assert items[..i + 1][..i] == items[..i];
      var item := items[i];
      var warehousesAndQuantities := allWarehouses(item.productGuid);
      if warehousesAndQuantities.None? {
        StockRowsFailurePersists(items, allWarehouses, warehouses, i + 1);
        return Failure(NotIterable);
      }
      var entries := warehousesAndQuantities.value;
      ghost var before := result;
      for j := 0 to |entries|
        invariant j > 0 ==> warehouses.Some?
        invariant warehouses.None? ==> result == before
        invariant warehouses.Some? ==> result == before + Seqs.Map(entries[..j], RowWith(item, warehouses.value))
      {
        var warehouseItem := entries[j];
        if warehouses.None? {
          StockRowsFailurePersists(items, allWarehouses, warehouses, i + 1);
          return Failure(NotIterable);
        }
        var warehouseCode := FetchWarehouseCodes(warehouses.value, warehouseItem.warehouseId);
        assert entries[..j + 1] == entries[..j] + [warehouseItem];
        Seqs.MapConcat(entries[..j], [warehouseItem], RowWith(item, warehouses.value));
        result := result + [StockRow(item.productCode, item.averageCost, warehouseCode, warehouseItem.availableQty)];
      }
      if entries == [] {
        assert ProductRows(item, allWarehouses, warehouses) == Success([]);
        assert result == before + [];
      } else {
        assert entries[..|entries|] == entries;
      }
    }
    assert items[..|items|] == items;
    return Success(result);
  }

  /** Once a product's fetch fails, so does every longer run of products. */
  lemma {:induction false} StockRowsFailurePersists(items: seq<StockItem>, allWarehouses: string -> Option<seq<WarehouseQty>>,
                                                    warehouses: Option<seq<Warehouse>>, n: nat)
    requires 0 < n <= |items|
    requires StockRows(items[..n - 1], allWarehouses, warehouses).Success?
    requires ProductRows(items[n - 1], allWarehouses, warehouses).Failure?
    ensures StockRows(items, allWarehouses, warehouses) == Failure(NotIterable)
    decreases |items|
  {
    if n < |items| {
      assert items[..|items| - 1][..n - 1] == items[..n - 1];
      StockRowsFailurePersists(items[..|items| - 1], allWarehouses, warehouses, n);
    } else {
      assert items[..n - 1] == items[..|items| - 1];
    }
  }

  /** The warehouse entries a product's fetch answered, none when it failed. */
  function Entries(item: StockItem, allWarehouses: string -> Option<seq<WarehouseQty>>): seq<WarehouseQty> {
    if allWarehouses(item.productGuid).Some? then allWarehouses(item.productGuid).value else []
  }

  function WarehouseList(warehouses: Option<seq<Warehouse>>): seq<Warehouse> {
    if warehouses.Some? then warehouses.value else []
  }

  /** Every fetch the loops make succeeds: each product's, and the warehouse list whenever a product has an entry. */
  predicate AllFetched(items: seq<StockItem>, allWarehouses: string -> Option<seq<WarehouseQty>>,
                       warehouses: Option<seq<Warehouse>>) {
    forall i :: 0 <= i < |items| ==>
      allWarehouses(items[i].productGuid).Some? && (Entries(items[i], allWarehouses) != [] ==> warehouses.Some?)
  }

  /** The number of entries of the products, that is the number of rows. */
  function RowCount(items: seq<StockItem>, allWarehouses: string -> Option<seq<WarehouseQty>>): nat {
    if items == [] then 0
    else RowCount(items[..|items| - 1], allWarehouses) + |Entries(items[|items| - 1], allWarehouses)|
  }

  lemma {:induction false} RowCountPrefix(items: seq<StockItem>, allWarehouses: string -> Option<seq<WarehouseQty>>, i: nat)
    requires i < |items|
    ensures RowCount(items[..i], allWarehouses) + |Entries(items[i], allWarehouses)| <= RowCount(items, allWarehouses)
    decreases |items|
  {
    var init := items[..|items| - 1];
    if i < |items| - 1 {
      assert init[..i] == items[..i] && init[i] == items[i];
      RowCountPrefix(init, allWarehouses, i);
    } else {
      assert items[..i] == init;
    }
  }

  /** One product's rows: one per entry, in entry order. */
  lemma ProductRowsAt(item: StockItem, allWarehouses: string -> Option<seq<WarehouseQty>>,
                      warehouses: Option<seq<Warehouse>>)
    ensures ProductRows(item, allWarehouses, warehouses).Success?
            <==> allWarehouses(item.productGuid).Some? && (Entries(item, allWarehouses) != [] ==> warehouses.Some?)
    ensures ProductRows(item, allWarehouses, warehouses).Success? ==>
              var more := ProductRows(item, allWarehouses, warehouses).value;
              |more| == |Entries(item, allWarehouses)|
              && forall j :: 0 <= j < |more| ==>
                   more[j] == RowFor(item, Entries(item, allWarehouses)[j], WarehouseList(warehouses))
  {
  }

  /** `processStockOnHand` fails exactly when one of the fetches it reads fails. */
  lemma {:induction false} StockRowsSucceeds(items: seq<StockItem>, allWarehouses: string -> Option<seq<WarehouseQty>>,
                                             warehouses: Option<seq<Warehouse>>)
    ensures StockRows(items, allWarehouses, warehouses).Success? <==> AllFetched(items, allWarehouses, warehouses)
    decreases |items|
  {
    if items != [] {
      var n := |items| - 1;
      var init := items[..n];
      StockRowsSucceeds(init, allWarehouses, warehouses);
      ProductRowsAt(items[n], allWarehouses, warehouses);
      assert forall i :: 0 <= i < n ==> items[i] == init[i];
    }
  }

  /**
    The row of entry `j` of product `i` follows the rows of the products
    before it, and carries that product's code and cost and that entry's
    quantity and warehouse code.
  */
  predicate RowAt(items: seq<StockItem>, allWarehouses: string -> Option<seq<WarehouseQty>>,
                  warehouses: Option<seq<Warehouse>>, rows: seq<StockRow>, i: nat, j: nat)
    requires i < |items| && j < |Entries(items[i], allWarehouses)|
  {
    && RowCount(items[..i], allWarehouses) + j < |rows|
    && rows[RowCount(items[..i], allWarehouses) + j]
       == RowFor(items[i], Entries(items[i], allWarehouses)[j], WarehouseList(warehouses))
  }

  /** `rows` holds one row per (product, warehouse entry) pair, in nested-loop order. */
  predicate LaidOut(items: seq<StockItem>, allWarehouses: string -> Option<seq<WarehouseQty>>,
                    warehouses: Option<seq<Warehouse>>, rows: seq<StockRow>) {
    && |rows| == RowCount(items, allWarehouses)
    && forall i, j :: 0 <= i < |items| && 0 <= j < |Entries(items[i], allWarehouses)| ==>
         RowAt(items, allWarehouses, warehouses, rows, i, j)
  }

  /** The rows of the earlier products keep their places when a product's rows are appended. */
  lemma LaidOutKeepsEarlier(items: seq<StockItem>, allWarehouses: string -> Option<seq<WarehouseQty>>,
                            warehouses: Option<seq<Warehouse>>, before: seq<StockRow>, more: seq<StockRow>,
                            i: nat, j: nat)
    requires i < |items| - 1 && j < |Entries(items[i], allWarehouses)|
    requires LaidOut(items[..|items| - 1], allWarehouses, warehouses, before)
    ensures RowAt(items, allWarehouses, warehouses, before + more, i, j)
  {
    var init := items[..|items| - 1];
    assert items[..i] == init[..i] && items[i] == init[i];
    RowCountPrefix(init, allWarehouses, i);
    assert RowAt(init, allWarehouses, warehouses, before, i, j);
  }

  /** The appended product's rows come right after the earlier products' rows. */
  lemma LaidOutPlacesLast(items: seq<StockItem>, allWarehouses: string -> Option<seq<WarehouseQty>>,
                          warehouses: Option<seq<Warehouse>>, before: seq<StockRow>, more: seq<StockRow>, j: nat)
    requires items != [] && j < |more| == |Entries(items[|items| - 1], allWarehouses)|
    requires |before| == RowCount(items[..|items| - 1], allWarehouses)
    requires more[j] == RowFor(items[|items| - 1], Entries(items[|items| - 1], allWarehouses)[j], WarehouseList(warehouses))
    ensures RowAt(items, allWarehouses, warehouses, before + more, |items| - 1, j)
  {
  }

  lemma LaidOutSnoc(items: seq<StockItem>, allWarehouses: string -> Option<seq<WarehouseQty>>,
                    warehouses: Option<seq<Warehouse>>, before: seq<StockRow>, more: seq<StockRow>)
    requires items != []
    requires LaidOut(items[..|items| - 1], allWarehouses, warehouses, before)
    requires |more| == |Entries(items[|items| - 1], allWarehouses)|
    requires forall j :: 0 <= j < |more| ==>
               more[j] == RowFor(items[|items| - 1], Entries(items[|items| - 1], allWarehouses)[j], WarehouseList(warehouses))
    ensures LaidOut(items, allWarehouses, warehouses, before + more)
  {
    var n := |items| - 1;
    assert RowCount(items, allWarehouses) == |before| + |more|;
    forall i, j | 0 <= i < |items| && 0 <= j < |Entries(items[i], allWarehouses)|
      ensures RowAt(items, allWarehouses, warehouses, before + more, i, j)
    {
      if i < n {
        LaidOutKeepsEarlier(items, allWarehouses, warehouses, before, more, i, j);
      } else {
        LaidOutPlacesLast(items, allWarehouses, warehouses, before, more, j);
      }
    }
  }

  /** On success, `processStockOnHand`'s rows are laid out as `LaidOut` says. */
  lemma {:induction false} StockRowsLayout(items: seq<StockItem>, allWarehouses: string -> Option<seq<WarehouseQty>>,
                                           warehouses: Option<seq<Warehouse>>)
    requires StockRows(items, allWarehouses, warehouses).Success?
    ensures LaidOut(items, allWarehouses, warehouses, StockRows(items, allWarehouses, warehouses).value)
    decreases |items|
  {
    if items != [] {
      var n := |items| - 1;
      StockRowsLayout(items[..n], allWarehouses, warehouses);
      ProductRowsAt(items[n], allWarehouses, warehouses);
      LaidOutSnoc(items, allWarehouses, warehouses, StockRows(items[..n], allWarehouses, warehouses).value,
                  ProductRows(items[n], allWarehouses, warehouses).value);
    }
  }
}
