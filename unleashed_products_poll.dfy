/**
  The UnleashedProductsPoll job's own logic: the Unleashed product codes
  Infraspeak does not have yet, compared after trimming and upper-casing
  both sides, and the details of the first of them.
*/
module UnleashedProductsPoll {
  import opened Common
  import opened JsText
  import Seqs
  import opened CatalogSync

  /** `normalizeCode`: trim, then upper-case. */
  function NormalizeCode(code: string): string {
    ToUpper(Trim(code))
  }

  /** Normalising twice is normalising once. */
  lemma NormalizeIdempotent(code: string)
    ensures NormalizeCode(NormalizeCode(code)) == NormalizeCode(code)
  {
    TrimCommutesWithUpper(Trim(code));
    TrimIdempotent(code);
    UpperIdempotent(Trim(code));
  }

  function Unlisted(infraspeakData: seq<string>): string -> bool {
    (code: string) => NormalizeCode(code) !in Seqs.Map(infraspeakData, NormalizeCode)
  }

  /**
    `matchProductsBetweenPlatforms`: the Unleashed codes, in their own
    order and spelling, whose normalised form is no Infraspeak code's
    normalised form.
  */
  function MatchProductsBetweenPlatforms(unleashedData: seq<string>, infraspeakData: seq<string>): (r: seq<string>)
    ensures Seqs.IsSubsequence(r, unleashedData)
    ensures forall code :: code in r <==>
              code in unleashedData
              && forall j :: 0 <= j < |infraspeakData| ==> NormalizeCode(infraspeakData[j]) != NormalizeCode(code)
    ensures forall code :: multiset(r)[code] == if Unlisted(infraspeakData)(code) then multiset(unleashedData)[code] else 0
  {
    ListedMembers(infraspeakData);
    Seqs.Filter(unleashedData, Unlisted(infraspeakData))
  }

  lemma ListedMembers(infraspeakData: seq<string>)
    ensures forall code :: Unlisted(infraspeakData)(code) <==>
              forall j :: 0 <= j < |infraspeakData| ==> NormalizeCode(infraspeakData[j]) != NormalizeCode(code)
  {
    var listed := Seqs.Map(infraspeakData, NormalizeCode);
    forall code ensures NormalizeCode(code) in listed <==>
             exists j :: 0 <= j < |infraspeakData| && NormalizeCode(infraspeakData[j]) == NormalizeCode(code)
    {
      if NormalizeCode(code) in listed {
        var j :| 0 <= j < |listed| && listed[j] == NormalizeCode(code);
      }
    }
  }

  /** A list matched against itself leaves nothing unmatched. */
  lemma MatchAgainstItself(codes: seq<string>)
    ensures MatchProductsBetweenPlatforms(codes, codes) == []
  {
  }

  /** Normalising the Infraspeak side beforehand changes nothing. */
  lemma MatchIgnoresInfraspeakSpelling(unleashedData: seq<string>, infraspeakData: seq<string>)
    ensures MatchProductsBetweenPlatforms(unleashedData, Seqs.Map(infraspeakData, NormalizeCode))
         == MatchProductsBetweenPlatforms(unleashedData, infraspeakData)
  {
    var normalised := Seqs.Map(infraspeakData, NormalizeCode);
    forall j | 0 <= j < |infraspeakData| ensures NormalizeCode(normalised[j]) == NormalizeCode(infraspeakData[j]) {
      NormalizeIdempotent(infraspeakData[j]);
    }
    assert Seqs.Map(normalised, NormalizeCode) == normalised;
    Seqs.FilterCongruent(unleashedData, Unlisted(normalised), Unlisted(infraspeakData));
  }

  /** `getProductDetails` throws this when there is no unmatched code. */
  const NoProducts: string := "No products provided to fetch details."

  /**
    `getProductDetails` as written: the first product whose upper-cased
    code equals the first unmatched code as it is, which keeps its own
    spelling.
  */
  function GetProductDetails(products: seq<string>, data: seq<UnleashedProduct>)
    : (r: Result<Option<ProductDetails>, string>)
    ensures r.Failure? <==> products == []
    ensures r.Success? && r.value.Some? ==> ToUpper(r.value.value.productCode) == products[0]
  {
    if products == [] then Failure(NoProducts) else Success(FindByUpperCode(data, products[0]))
  }

  /**
    As written, a first unmatched code with a lower-case letter is never
    found, whatever the product list holds.
  */
  lemma LowerCaseDetailsNeverFound(products: seq<string>, data: seq<UnleashedProduct>)
    requires products != [] && HasLowerCase(products[0])
    ensures GetProductDetails(products, data) == Success(None)
  {
    LowerCaseCodeNeverFound(data, products[0]);
  }

  /** The code of an Unleashed product, as the product feed lists it. */
  function CodeOf(p: UnleashedProduct): string {
    p.productCode
  }

  /** A product whose code has a lower-case letter, and nothing else to match it against. */
  const LowerCaseProduct: UnleashedProduct := UnleashedProduct("abc", "Widget", "1.50", "EA", None, Some([]))

  /**
    The feed lists product "abc", Infraspeak has nothing, so "abc" is the
    first unmatched code, yet its details are not found.
  */
  lemma LowerCaseProductLost()
    ensures MatchProductsBetweenPlatforms(Seqs.Map([LowerCaseProduct], CodeOf), []) == ["abc"]
    ensures GetProductDetails(["abc"], [LowerCaseProduct]) == Success(None)
  {
    assert HasLowerCase("abc") by { assert 'a' <= "abc"[0] <= 'z'; }
    LowerCaseDetailsNeverFound(["abc"], [LowerCaseProduct]);
    var codes := Seqs.Map([LowerCaseProduct], CodeOf);
    assert codes == ["abc"];
    Seqs.FilterCons("abc", [], Unlisted([]));
  }

  /**
    `getProductDetails` with both codes upper-cased: the first product whose
    code equals the first unmatched code, ignoring letter case.
  */
  function GetProductDetailsFixed(products: seq<string>, data: seq<UnleashedProduct>)
    : (r: Result<Option<ProductDetails>, string>)
    ensures r.Failure? <==> products == []
    ensures r.Success? && r.value.Some? ==> ToUpper(r.value.value.productCode) == ToUpper(products[0])
  {
    if products == [] then Failure(NoProducts) else Success(FindByUpperCode(data, ToUpper(products[0])))
  }

  /**
    The job's first steps with the corrected lookup: the unmatched codes of
    the Unleashed feed, then the details of the first of them.
  */
  function FirstUnmatchedDetails(data: seq<UnleashedProduct>, infraspeakData: seq<string>)
    : Result<Option<ProductDetails>, string>
  {
    GetProductDetailsFixed(MatchProductsBetweenPlatforms(Seqs.Map(data, CodeOf), infraspeakData), data)
  }

  /**
    With the corrected lookup, whenever some product is unmatched its
    details are found, and they are those of the first product spelled
    like the first unmatched code up to letter case.
  */
  lemma FirstUnmatchedIsFound(data: seq<UnleashedProduct>, infraspeakData: seq<string>)
    ensures var unmatched := MatchProductsBetweenPlatforms(Seqs.Map(data, CodeOf), infraspeakData);
            var r := FirstUnmatchedDetails(data, infraspeakData);
            && (r.Failure? <==> unmatched == [])
            && (r.Success? ==> r.value.Some? && ToUpper(r.value.value.productCode) == ToUpper(unmatched[0]))
  {
    var codes := Seqs.Map(data, CodeOf);
    var unmatched := MatchProductsBetweenPlatforms(codes, infraspeakData);
    if unmatched != [] {
      assert unmatched[0] in codes;
      var k :| 0 <= k < |codes| && codes[k] == unmatched[0];
      assert ToUpper(data[k].productCode) == ToUpper(unmatched[0]);
    }
  }
}
