/**
  The catalog-sync steps that the UnleashedProductsPoll and match-products
  jobs share line for line: the product-details record, the list of
  warehouse codes a product is stocked in, the check of those codes
  against Infraspeak's warehouses, the folder lookup, and the folder,
  material and stock-movement payloads posted to Infraspeak.

  Prices are only passed through; they are kept as the text of the JSON
  number the job received.
*/
module CatalogSync {
  import opened Common
  import opened JsText
  import Seqs

  // ---------------------------------------------------------------------
  // Unleashed products and the details record

  /** An `InventoryDetails` entry, reduced to `Warehouse.WarehouseCode` (`None` when either is missing). */
  datatype InventoryDetail = InventoryDetail(warehouseCode: Option<string>)

  /** A product's `ProductGroup`, reduced to its `GroupName`. */
  datatype ProductGroup = ProductGroup(groupName: Option<string>)

  /**
    An item of Unleashed's product feed, with the fields the jobs read;
    `inventoryDetails` is `None` when the feed's value is not an array.
  */
  datatype UnleashedProduct = UnleashedProduct(
    productCode: string,
    productDescription: string,
    averageLandPrice: string,
    unitOfMeasure: string,
    productGroup: Option<ProductGroup>,
    inventoryDetails: Option<seq<InventoryDetail>>)

  /** The six-field record `getProductDetails` returns. */
  datatype ProductDetails = ProductDetails(
    productCode: string,
    productDescription: string,
    averageLandPrice: string,
    unitOfMeasure: string,
    productGroup: Option<ProductGroup>,
    warehouseId: Option<seq<InventoryDetail>>)

  function DetailsOf(p: UnleashedProduct): ProductDetails {
    ProductDetails(p.productCode, p.productDescription, p.averageLandPrice, p.unitOfMeasure,
                   p.productGroup, p.inventoryDetails)
  }

  function UpperCodeIs(code: string): UnleashedProduct -> bool {
    (p: UnleashedProduct) => ToUpper(p.productCode) == code
  }

  /**
    `UnleashedData.find(product => product.ProductCode.toUpperCase() === code)`,
    mapped to the details record; `None` is the `null` returned when no
    product matches.
  */
  function FindByUpperCode(data: seq<UnleashedProduct>, code: string): (r: Option<ProductDetails>)
    ensures r.None? <==> forall k :: 0 <= k < |data| ==> ToUpper(data[k].productCode) != code
    ensures r.Some? ==> ToUpper(r.value.productCode) == code
  {
    match Seqs.FirstWhere(data, UpperCodeIs(code))
    case None => None
    case Some(p) => Some(DetailsOf(p))
  }

  /** The product found is the first whose upper-cased code is `code`. */
  lemma FindByUpperCodeIsFirst(data: seq<UnleashedProduct>, code: string, k: nat)
    requires k < |data| && ToUpper(data[k].productCode) == code
    requires forall j :: 0 <= j < k ==> ToUpper(data[j].productCode) != code
    ensures FindByUpperCode(data, code) == Some(DetailsOf(data[k]))
  {
    Seqs.FirstWhereAt(data, UpperCodeIs(code), k);
  }

  /** Upper-cased text has no lower-case ASCII letter. */
  predicate HasLowerCase(s: string) {
    exists i :: 0 <= i < |s| && 'a' <= s[i] <= 'z'
  }

  lemma UpperHasNoLowerCase(s: string)
    ensures !HasLowerCase(ToUpper(s))
  {
    forall i | 0 <= i < |s| ensures !('a' <= ToUpper(s)[i] <= 'z') {
      UpperAt(s, i);
    }
  }

  /** A code with a lower-case letter is never found: every product's code is compared upper-cased. */
  lemma LowerCaseCodeNeverFound(data: seq<UnleashedProduct>, code: string)
    requires HasLowerCase(code)
    ensures FindByUpperCode(data, code).None?
  {
    forall k | 0 <= k < |data| ensures ToUpper(data[k].productCode) != code {
      UpperHasNoLowerCase(data[k].productCode);
    }
  }

  // ---------------------------------------------------------------------
  // Warehouse codes

  /** `parseInt(warehouse?.Warehouse?.WarehouseCode, 10)`; a missing code reads as `NaN` (`None`). */
  function ParseWarehouseCode(e: InventoryDetail): Option<int> {
    if e.warehouseCode.Some? then ParseInt(e.warehouseCode.value) else None
  }

  /** The parsed code when it survives `.filter(Boolean)`, which drops `NaN` and `0`. */
  function TruthyCode(e: InventoryDetail): Option<int> {
    match ParseWarehouseCode(e)
    case Some(n) => if n != 0 then Some(n) else None
    case None => None
  }

  /**
    `UnleashedWarehouseCodes`: the truthy parsed codes of the product's
    inventory entries, or `[fallback]` when there are no details or the
    entries are not an array.
  */
  function WarehouseCodes(details: Option<ProductDetails>, fallback: int): (r: seq<int>)
    ensures details.None? || details.value.warehouseId.None? ==> r == [fallback]
  {
    if details.Some? && details.value.warehouseId.Some? then
      Seqs.Somes(Seqs.Map(details.value.warehouseId.value, TruthyCode))
    else [fallback]
  }

  /** With inventory entries, the codes are exactly the non-zero codes some entry parses to. */
  lemma WarehouseCodesMembers(details: ProductDetails, fallback: int, n: int)
    requires details.warehouseId.Some?
    ensures n in WarehouseCodes(Some(details), fallback)
            <==> n != 0 && exists k :: 0 <= k < |details.warehouseId.value|
                                  && ParseWarehouseCode(details.warehouseId.value[k]) == Some(n)
  {
    var entries := details.warehouseId.value;
    var parsed := Seqs.Map(entries, TruthyCode);
    if n in WarehouseCodes(Some(details), fallback) {
      assert Some(n) in parsed;
      var k :| 0 <= k < |parsed| && parsed[k] == Some(n);
      assert TruthyCode(entries[k]) == Some(n);
    }
    if n != 0 && exists k :: 0 <= k < |entries| && ParseWarehouseCode(entries[k]) == Some(n) {
      var k :| 0 <= k < |entries| && ParseWarehouseCode(entries[k]) == Some(n);
      assert parsed[k] == Some(n);
    }
  }

  /** `[...new Set(UnleashedWarehouseCodes)]`. */
  function UniqueWarehouseCodes(details: Option<ProductDetails>, fallback: int): (r: seq<int>)
    ensures Seqs.Distinct(r)
    ensures forall n :: n in r <==> n in WarehouseCodes(details, fallback)
  {
    Seqs.Dedup(WarehouseCodes(details, fallback))
  }

  function InCodes(codes: seq<int>): int -> bool {
    (id: int) => id in codes
  }

  /**
    `checkWarehouseExists`: the ids of Infraspeak's warehouse list that are
    among the requested codes, in the order of that list.
  */
  function CheckWarehouseExists(platformIds: seq<int>, codes: seq<int>): (r: seq<int>)
    ensures Seqs.IsSubsequence(r, platformIds)
    ensures forall id :: id in r <==> id in platformIds && id in codes
    ensures forall id :: multiset(r)[id] == if id in codes then multiset(platformIds)[id] else 0
  {
    Seqs.Filter(platformIds, InCodes(codes))
  }

  /** Only the set of requested codes matters, so removing repeats beforehand changes nothing. */
  lemma CheckWarehouseIgnoresRepeats(platformIds: seq<int>, details: Option<ProductDetails>, fallback: int)
    ensures CheckWarehouseExists(platformIds, UniqueWarehouseCodes(details, fallback))
         == CheckWarehouseExists(platformIds, WarehouseCodes(details, fallback))
  {
    Seqs.FilterCongruent(platformIds, InCodes(UniqueWarehouseCodes(details, fallback)),
                         InCodes(WarehouseCodes(details, fallback)));
  }

  /** `warehouseIds.length > 0 ? warehouseIds : [fallback]` in the handler. */
  function TargetWarehouses(matched: seq<int>, fallback: int): (r: seq<int>)
    ensures r != []
    ensures r == matched || (matched == [] && r == [fallback])
  {
    if |matched| > 0 then matched else [fallback]
  }

  /** The warehouses the handler creates the folder and the material in. */
  function WarehousesToUse(details: Option<ProductDetails>, platformIds: seq<int>, fallback: int): seq<int> {
    TargetWarehouses(CheckWarehouseExists(platformIds, UniqueWarehouseCodes(details, fallback)), fallback)
  }

  /**
    The handler always has at least one warehouse; it uses the fallback
    alone or only warehouses that both exist in Infraspeak and are listed
    for the product, each once when Infraspeak lists each once.
  */
  lemma WarehousesToUseSound(details: Option<ProductDetails>, platformIds: seq<int>, fallback: int)
    ensures var r := WarehousesToUse(details, platformIds, fallback);
            && r != []
            && (r == [fallback] || forall id :: id in r ==> id in platformIds && id in WarehouseCodes(details, fallback))
            && (Seqs.Distinct(platformIds) ==> Seqs.Distinct(r))
  {
    var matched := CheckWarehouseExists(platformIds, UniqueWarehouseCodes(details, fallback));
    if Seqs.Distinct(platformIds) {
      Seqs.FilterKeepsDistinct(platformIds, InCodes(UniqueWarehouseCodes(details, fallback)));
    }
  }

  // ---------------------------------------------------------------------
  // Folders

  /** `productDetails?.productGroup?.GroupName || "DEFAULTFOLDER"`. */
  const DefaultFolder: string := "DEFAULTFOLDER"

  /** The product has a group with a non-empty `GroupName`, which `||` keeps. */
  predicate HasGroupName(details: Option<ProductDetails>) {
    details.Some? && details.value.productGroup.Some? && details.value.productGroup.value.groupName.Some?
    && details.value.productGroup.value.groupName.value != []
  }

  /** The folder name: the product's group name when it has a non-empty one, `DEFAULTFOLDER` otherwise. */
  function GroupName(details: Option<ProductDetails>): (r: string)
    ensures r != []
    ensures HasGroupName(details) ==> r == details.value.productGroup.value.groupName.value
    ensures !HasGroupName(details) ==> r == DefaultFolder
  {
    if HasGroupName(details)
    then details.value.productGroup.value.groupName.value
    else DefaultFolder
  }

  /** An Infraspeak material as the folder fetch reads it: `full_code` and `material_id`, either may be missing. */
  datatype RawMaterial = RawMaterial(fullCode: Option<string>, materialId: Option<int>)

  /** A folder of the lookup list; `materialId` is `None` when the material had none. */
  datatype Folder = Folder(folder: string, materialId: Option<int>)

  /** `full_code?.trim().toUpperCase()`, kept only when it is a non-empty string. */
  function FolderEntry(m: RawMaterial): Option<Folder> {
    if m.fullCode.Some? && ToUpper(Trim(m.fullCode.value)) != [] then
      Some(Folder(ToUpper(Trim(m.fullCode.value)), m.materialId))
    else None
  }

  /** One page of the folder list, in page order. */
  function FolderEntries(page: seq<RawMaterial>): (r: seq<Folder>)
    ensures forall f :: f in r ==> f.folder != [] && !HasLowerCase(f.folder)
  {
    var r := Seqs.Somes(Seqs.Map(page, FolderEntry));
    forall f | f in r ensures f.folder != [] && !HasLowerCase(f.folder) {
      var entries := Seqs.Map(page, FolderEntry);
      assert Some(f) in entries;
      var k :| 0 <= k < |entries| && entries[k] == Some(f);
      UpperHasNoLowerCase(Trim(page[k].fullCode.value));
    }
    r
  }

  function Named(folderName: string): Folder -> bool {
    (f: Folder) => f.folder == folderName
  }

  /**
    `checkFolderExists`: the `material_id` of the first folder whose code is
    exactly `folderName`; `None` when there is none (`null`) or when that
    folder has no id (`undefined`).
  */
  function CheckFolderExists(folders: seq<Folder>, folderName: string): (r: Option<int>)
    ensures (forall k :: 0 <= k < |folders| ==> folders[k].folder != folderName) ==> r.None?
  {
    match Seqs.FirstWhere(folders, Named(folderName))
    case None => None
    case Some(f) => f.materialId
  }

  lemma CheckFolderExistsIsFirst(folders: seq<Folder>, folderName: string, k: nat)
    requires k < |folders| && folders[k].folder == folderName
    requires forall j :: 0 <= j < k ==> folders[j].folder != folderName
    ensures CheckFolderExists(folders, folderName) == folders[k].materialId
  {
    Seqs.FirstWhereAt(folders, Named(folderName), k);
  }

  /**
    The folder codes are upper-cased while the group name is compared as
    it is, so a group name with a lower-case letter is never found.
  */
  lemma LowerCaseGroupNeverFound(page: seq<RawMaterial>, folderName: string)
    requires HasLowerCase(folderName)
    ensures CheckFolderExists(FolderEntries(page), folderName).None?
  {
    var folders := FolderEntries(page);
    forall k | 0 <= k < |folders| ensures folders[k].folder != folderName {
      assert folders[k] in folders;
    }
  }

  // ---------------------------------------------------------------------
  // Payloads

  /** A `material_warehouse` entry. */
  datatype MaterialWarehouse = MaterialWarehouse(warehouseId: int, minStock: int, meanPrice: int, observation: string)

  /** The body of a `materials` post, for a folder or for a material. */
  datatype MaterialPayload = MaterialPayload(
    kind: string,
    name: string,
    code: string,
    observation: string,
    meanPrice: string,
    units: string,
    materialWarehouse: seq<MaterialWarehouse>,
    parentId: Option<int>,
    defaultSellPrice: int,
    defaultSellVat: int)

  function WarehouseEntry(warehouseId: int): MaterialWarehouse {
    MaterialWarehouse(warehouseId, 1, 0, "string")
  }

  /** `warehouseIds.map(...)`: one entry per warehouse, in order. */
  function WarehouseEntries(warehouseIds: seq<int>): (r: seq<MaterialWarehouse>)
    ensures |r| == |warehouseIds|
    ensures forall i :: 0 <= i < |r| ==> r[i].minStock == 1 && r[i].meanPrice == 0
  {
    Seqs.Map(warehouseIds, WarehouseEntry)
  }

  function EntryWarehouse(e: MaterialWarehouse): int {
    e.warehouseId
  }

  /** The warehouses can be read back from the entries, in order. */
  lemma WarehouseEntriesRoundTrip(warehouseIds: seq<int>)
    ensures Seqs.Map(WarehouseEntries(warehouseIds), EntryWarehouse) == warehouseIds
  {
  }

  /** `createFolderPayload`. */
  function FolderPayload(folderCode: string, warehouseIds: seq<int>): (r: MaterialPayload)
    ensures r.kind == "FOLDER" && r.code == folderCode && r.parentId.None?
    ensures r.materialWarehouse == WarehouseEntries(warehouseIds)
  {
    MaterialPayload("FOLDER", "Folder", folderCode, "", "0", "", WarehouseEntries(warehouseIds), None, 0, 0)
  }

  /** `createMaterialPayload`: the name, code and price come from the details, the parent is the folder. */
  function MaterialPayloadFor(details: ProductDetails, folderId: int, warehouseIds: seq<int>): (r: MaterialPayload)
    ensures r.kind == "MATERIAL" && r.units == "un"
    ensures r.name == details.productDescription && r.code == details.productCode
    ensures r.meanPrice == details.averageLandPrice
    ensures r.parentId == Some(folderId)
    ensures r.materialWarehouse == WarehouseEntries(warehouseIds)
  {
    MaterialPayload("MATERIAL", details.productDescription, details.productCode, "", details.averageLandPrice,
                    "un", WarehouseEntries(warehouseIds), Some(folderId), 0, 0)
  }

  /** Reading a field of `null` details throws before anything is posted. */
  const NullDetails: string := "TypeError: Cannot read properties of null"

  /** `createMaterial`'s payload, which cannot be built from `null` details. */
  function CreateMaterialPayload(details: Option<ProductDetails>, folderId: int, warehouseIds: seq<int>)
    : (r: Result<MaterialPayload, string>)
    ensures r.Failure? <==> details.None?
  {
    if details.None? then Failure(NullDetails) else Success(MaterialPayloadFor(details.value, folderId, warehouseIds))
  }

  /** What `createOrGetFolder` returns and, when it creates the folder, what it posts. */
  datatype FolderChoice = FolderChoice(folderId: int, posted: Option<MaterialPayload>)

  /**
    `createOrGetFolder`: the folder found when its id is truthy, otherwise a
    newly posted folder, whose id (`createdId`) is the post's answer.
  */
  function CreateOrGetFolder(folders: seq<Folder>, folderName: string, warehouseIds: seq<int>, createdId: int)
    : (r: FolderChoice)
    ensures var found := CheckFolderExists(folders, folderName);
            && (r.posted.None? <==> found.Some? && found.value != 0)
            && (r.posted.None? ==> r.folderId == found.value)
            && (r.posted.Some? ==> r.posted.value == FolderPayload(folderName, warehouseIds) && r.folderId == createdId)
  {
    var found := CheckFolderExists(folders, folderName);
    if found.Some? && found.value != 0 then FolderChoice(found.value, None)
    else FolderChoice(createdId, Some(FolderPayload(folderName, warehouseIds)))
  }

  /** With a lower-case group name the folder is posted again on every run. */
  lemma LowerCaseGroupAlwaysPosted(page: seq<RawMaterial>, folderName: string, warehouseIds: seq<int>, createdId: int)
    requires HasLowerCase(folderName)
    ensures CreateOrGetFolder(FolderEntries(page), folderName, warehouseIds, createdId).posted.Some?
  {
    LowerCaseGroupNeverFound(page, folderName);
  }

  /** A `stocks` entry of a stock movement; the material id is `None` when the job had none. */
  datatype StockEntry = StockEntry(materialId: Option<int>, quantity: int)

  datatype StockMovementPayload = StockMovementPayload(
    kind: string, action: string, warehouseId: int, observation: string, stocks: seq<StockEntry>)

  /** `createStockMovementPayload`: always an `ADD` of one stock entry. */
  function CreateStockMovementPayload(materialId: Option<int>, quantity: int, warehouseId: int)
    : (r: StockMovementPayload)
    ensures r.action == "ADD" && r.warehouseId == warehouseId
    ensures r.stocks == [StockEntry(materialId, quantity)]
  {
    StockMovementPayload("stock-movement", "ADD", warehouseId, "string", [StockEntry(materialId, quantity)])
  }
}
