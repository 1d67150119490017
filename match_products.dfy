/**
  The match-products job's own logic. Its matcher compares codes as they
  are; the codes are normalised before it, and differently on each side:
  Infraspeak's `full_code`s are trimmed and upper-cased and the empty ones
  dropped, Unleashed's `ProductCode`s are only upper-cased. Its product
  lookup ignores the unmatched list and looks up one fixed code.
*/
module MatchProducts {
  import opened Common
  import opened JsText
  import Seqs
  import opened CatalogSync
  import UnleashedProductsPoll

  /** `full_code?.trim().toUpperCase()`, kept only when it is a non-empty string. */
  function InfraspeakCode(fullCode: Option<string>): Option<string> {
    if fullCode.Some? && ToUpper(Trim(fullCode.value)) != [] then Some(ToUpper(Trim(fullCode.value))) else None
  }

  /** The Infraspeak codes of one page of materials, in page order. */
  function InfraspeakCodes(fullCodes: seq<Option<string>>): (r: seq<string>)
    ensures forall c :: c in r <==> exists k :: 0 <= k < |fullCodes| && InfraspeakCode(fullCodes[k]) == Some(c)
  {
    var r := Seqs.Somes(Seqs.Map(fullCodes, InfraspeakCode));
    assert forall c :: Some(c) in Seqs.Map(fullCodes, InfraspeakCode)
             <==> exists k :: 0 <= k < |fullCodes| && InfraspeakCode(fullCodes[k]) == Some(c);
    r
  }

  /** Every Infraspeak code is non-empty and already in normal form. */
  lemma InfraspeakCodesNormalised(fullCodes: seq<Option<string>>)
    ensures forall c :: c in InfraspeakCodes(fullCodes) ==> c != [] && UnleashedProductsPoll.NormalizeCode(c) == c
  {
    forall c | c in InfraspeakCodes(fullCodes)
      ensures c != [] && UnleashedProductsPoll.NormalizeCode(c) == c
    {
      var k :| 0 <= k < |fullCodes| && InfraspeakCode(fullCodes[k]) == Some(c);
      UnleashedProductsPoll.NormalizeIdempotent(fullCodes[k].value);
    }
  }

  function UpperCodeOf(p: UnleashedProduct): string {
    ToUpper(p.productCode)
  }

  /** `product.ProductCode.toUpperCase()` for each item of the Unleashed feed; no trimming. */
  function UnleashedCodes(data: seq<UnleashedProduct>): (r: seq<string>)
    ensures |r| == |data| && forall i :: 0 <= i < |r| ==> r[i] == ToUpper(data[i].productCode)
  {
    Seqs.Map(data, UpperCodeOf)
  }

  function Absent(infraspeakData: seq<string>): string -> bool {
    (code: string) => code !in infraspeakData
  }

  /** `matchProductsBetweenPlatforms`: the Unleashed codes, in order, that are not Infraspeak codes as they are. */
  function MatchProductsBetweenPlatforms(unleashedData: seq<string>, infraspeakData: seq<string>): (r: seq<string>)
    ensures Seqs.IsSubsequence(r, unleashedData)
    ensures forall code :: code in r <==> code in unleashedData && code !in infraspeakData
    ensures forall code :: multiset(r)[code] == if code in infraspeakData then 0 else multiset(unleashedData)[code]
  {
    Seqs.Filter(unleashedData, Absent(infraspeakData))
  }

  /** A list matched against itself leaves nothing unmatched. */
  lemma MatchAgainstItself(codes: seq<string>)
    ensures MatchProductsBetweenPlatforms(codes, codes) == []
  {
  }

  /** A non-empty code is among this job's Infraspeak codes exactly when it is a normalised raw code. */
  lemma InfraspeakCodesMembers(infraspeakData: seq<string>, c: string)
    requires c != []
    ensures c in InfraspeakCodes(Seqs.Map(infraspeakData, Present))
            <==> c in Seqs.Map(infraspeakData, UnleashedProductsPoll.NormalizeCode)
  {
    var raw := Seqs.Map(infraspeakData, Present);
    var normalised := Seqs.Map(infraspeakData, UnleashedProductsPoll.NormalizeCode);
    if c in InfraspeakCodes(raw) {
      var k :| 0 <= k < |raw| && InfraspeakCode(raw[k]) == Some(c);
      assert raw[k] == Some(infraspeakData[k]);
      assert normalised[k] == UnleashedProductsPoll.NormalizeCode(infraspeakData[k]);
      assert c in normalised;
    }
    if c in normalised {
      var k :| 0 <= k < |normalised| && normalised[k] == c;
      assert raw[k] == Some(infraspeakData[k]);
      assert c == ToUpper(Trim(infraspeakData[k]));
      assert InfraspeakCode(raw[k]) == Some(c);
    }
  }

  /** A non-empty code without surrounding white space gets the same verdict from both matchers. */
  lemma SameVerdict(code: string, infraspeakData: seq<string>)
    requires code != [] && IsTrimmed(code)
    ensures UnleashedProductsPoll.Unlisted(infraspeakData)(code)
         == Absent(InfraspeakCodes(Seqs.Map(infraspeakData, Present)))(ToUpper(code))
  {
    TrimmedIsFixedPoint(code);
    assert UnleashedProductsPoll.NormalizeCode(code) == ToUpper(code);
    InfraspeakCodesMembers(infraspeakData, ToUpper(code));
  }

  /**
    Given the same Infraspeak code list, and when every Unleashed code is
    non-empty and has no surrounding white space, this job's upstream
    normalisation plus exact matcher reports the same products as the
    normalising matcher of UnleashedProductsPoll, in the same order,
    upper-cased. The two jobs fetch different attributes (`full_code` here,
    `code` there), so their lists agree when each material's two codes
    normalise alike.
  */
  lemma AgreesWithPoll(data: seq<UnleashedProduct>, infraspeakData: seq<string>)
    requires forall i :: 0 <= i < |data| ==> data[i].productCode != [] && IsTrimmed(data[i].productCode)
    ensures MatchProductsBetweenPlatforms(UnleashedCodes(data), InfraspeakCodes(Seqs.Map(infraspeakData, Present)))
         == Seqs.Map(UnleashedProductsPoll.MatchProductsBetweenPlatforms(Seqs.Map(data, UnleashedProductsPoll.CodeOf),
                                                                         infraspeakData), ToUpper)
  {
    var codes := Seqs.Map(data, UnleashedProductsPoll.CodeOf);
    var infra := InfraspeakCodes(Seqs.Map(infraspeakData, Present));
    assert UnleashedCodes(data) == Seqs.Map(codes, ToUpper);
    forall i | 0 <= i < |codes|
      ensures UnleashedProductsPoll.Unlisted(infraspeakData)(codes[i]) == Absent(infra)(ToUpper(codes[i]))
    {
      SameVerdict(codes[i], infraspeakData);
    }
    Seqs.FilterMap(codes, ToUpper, Absent(infra), UnleashedProductsPoll.Unlisted(infraspeakData));
  }

  function Present(code: string): Option<string> {
    Some(code)
  }

  lemma NormalizeLeadingSpace()
    ensures UnleashedProductsPoll.NormalizeCode(" X") == "X"
    ensures UnleashedProductsPoll.NormalizeCode("X") == "X"
  {
    assert " X"[1..] == "X";
    assert TrimStart(" X") == "X";
    assert TrimEnd("X") == "X";
    assert ToUpper("X") == [UpperChar('X')] + ToUpper([]);
  }

  /** UnleashedProductsPoll matches the Unleashed code " X" with the Infraspeak code "X"... */
  lemma PollMatchesLeadingSpace()
    ensures UnleashedProductsPoll.MatchProductsBetweenPlatforms([" X"], ["X"]) == []
  {
    NormalizeLeadingSpace();
    Seqs.MapSingle("X", UnleashedProductsPoll.NormalizeCode);
    assert !UnleashedProductsPoll.Unlisted(["X"])(" X");
    Seqs.FilterCons(" X", [], UnleashedProductsPoll.Unlisted(["X"]));
  }

  /** ...while this job leaves it unmatched, since it upper-cases the Unleashed side without trimming it. */
  lemma LeadingSpaceUnmatched()
    ensures MatchProductsBetweenPlatforms([ToUpper(" X")], InfraspeakCodes([Some("X")])) == [" X"]
  {
    NormalizeLeadingSpace();
    assert ToUpper("X") == [UpperChar('X')] + ToUpper([]) == "X";
    assert ToUpper(" X") == [UpperChar(' ')] + ToUpper("X") == " X";
    assert InfraspeakCode(Some("X")) == Some("X");
    Seqs.MapSingle(Some("X"), InfraspeakCode);
    Seqs.SomesSingle(Some("X"));
    assert InfraspeakCodes([Some("X")]) == ["X"];
    assert Absent(["X"])(" X");
    Seqs.FilterCons(" X", [], Absent(["X"]));
    assert [" X"] + Seqs.Filter([], Absent(["X"])) == [" X"];
  }

  /** The one code match-products looks up, whatever the unmatched list holds. */
  const LookedUpCode: string := "15.HBF-08-08"

  /** `getProductDetails`: throws on an empty list, otherwise looks up `LookedUpCode`. */
  function GetProductDetails(products: seq<string>, data: seq<UnleashedProduct>)
    : (r: Result<Option<ProductDetails>, string>)
    ensures r.Failure? <==> products == []
    ensures r.Success? ==> (r.value.Some? <==> exists k :: 0 <= k < |data| && ToUpper(data[k].productCode) == LookedUpCode)
    ensures r.Success? && r.value.Some? ==> ToUpper(r.value.value.productCode) == LookedUpCode
  {
    if products == [] then Failure(UnleashedProductsPoll.NoProducts) else Success(FindByUpperCode(data, LookedUpCode))
  }

  /** Which codes are unmatched only decides whether the lookup happens, not what it finds. */
  lemma DetailsIgnoreUnmatchedCodes(products: seq<string>, others: seq<string>, data: seq<UnleashedProduct>)
    requires products != [] && others != []
    ensures GetProductDetails(products, data) == GetProductDetails(others, data)
  {
  }
}
