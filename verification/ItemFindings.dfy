/** The findings about SKUs, and the findings of a whole reconciliation. */
module ItemFindings {
  import opened Wrappers
  import opened Reconciliation
  import opened NumberFormat
  import opened Filing
  import opened Findings
  import C = ClearDecision
  import StringOrder

  // ---------------------------------------------------------------------------------------------
  // What raises a finding about a SKU
  // ---------------------------------------------------------------------------------------------

  /** Item `k` is the one filed under the SKU: the last that carries it. */
  predicate IsFiled(items: seq<Item>, k: nat, sku: string, thr: real, th: Theory) {
    && k < |items| && Carries(items[k], sku, thr, th)
    && forall n :: k < n < |items| ==> !Carries(items[n], sku, thr, th)
  }

  predicate Has(d: Document, sku: string, thr: real, th: Theory) {
    exists k :: 0 <= k < |d.items| && Carries(d.items[k], sku, thr, th)
  }

  predicate Lacking(docs: seq<Document>, i: nat, sku: string, thr: real, th: Theory)
    requires i < |docs|
  {
    !Has(Filers(docs)[i], sku, thr, th)
  }

  /** Incomplete, empty, or with an unsure value in some item. */
  predicate Unsure(d: Document, thr: real) {
    !d.complete || d.items == [] || exists k :: 0 <= k < |d.items| && !SureItem(d.items[k], thr)
  }

  predicate UnsureType(docs: seq<Document>, t: DocType, thr: real) {
    exists j :: 0 <= j < |docs| && docs[j].docType == t && Unsure(docs[j], thr)
  }

  function Wording(item: Item, th: Theory): string {
    th.normText(ShownIfStated(item.description.value))
  }

  /** Confidently described, and not blank. */
  predicate Worded(item: Item, thr: real, th: Theory) {
    item.description.confidence >= thr && Wording(item, th) != ""
  }

  /** The candidate, whose SKU is confident, is worded much like the filed item. */
  predicate Resembles(candidate: Item, filed: Item, thr: real, th: Theory) {
    && candidate.sku.confidence >= thr && Worded(candidate, thr, th) && Worded(filed, thr, th)
    && th.tokenSetRatio(Wording(candidate, th), Wording(filed, th)) >= 92.0
  }

  predicate ResemblesFiled(docs: seq<Document>, candidate: Item, sku: string, thr: real, th: Theory) {
    exists j, k :: 0 <= j < |docs| && 0 <= k < |Filers(docs)[j].items|
      && IsFiled(Filers(docs)[j].items, k, sku, thr, th) && Resembles(candidate, Filers(docs)[j].items[k], thr, th)
  }

  /** An item of a document without the SKU resembles one that is filed under the SKU. */
  predicate WrongSkuLikely(docs: seq<Document>, sku: string, thr: real, th: Theory) {
    exists i, n :: 0 <= i < |docs| && Lacking(docs, i, sku, thr, th) && 0 <= n < |docs[i].items|
                   && ResemblesFiled(docs, docs[i].items[n], sku, thr, th)
  }

  predicate SomeLack(docs: seq<Document>, sku: string, thr: real, th: Theory) {
    exists i :: 0 <= i < |docs| && Lacking(docs, i, sku, thr, th)
  }

  /** Some document of a type that lacks the SKU is unsure. */
  predicate AbsenceUnsure(docs: seq<Document>, sku: string, thr: real, th: Theory) {
    exists i :: 0 <= i < |docs| && Lacking(docs, i, sku, thr, th) && UnsureType(docs, docs[i].docType, thr)
  }

  /** A SKU that some document lacks raises a finding unless a document of a type that lacks it is unsure. */
  predicate AbsenceRaises(docs: seq<Document>, sku: string, thr: real, th: Theory, t: Tag) {
    && !AbsenceUnsure(docs, sku, thr, th)
    && t == if WrongSkuLikely(docs, sku, thr, th) then Tag(WrongSku, High, ItemSku) else Tag(MissingItem, High, Items)
  }

  function Wordings(items: seq<Item>, th: Theory): seq<string> {
    seq(|items|, i requires 0 <= i < |items| => Wording(items[i], th))
  }

  predicate WordingRaises(items: seq<Item>, thr: real, th: Theory, t: Tag) {
    && (forall i :: 0 <= i < |items| ==> Worded(items[i], thr, th))
    && Differ(Wordings(items, th))
    && t == if AllAlike(Wordings(items, th), th) then Tag(PossibleTextVariation, Medium, ItemDescription)
            else Tag(ItemDescriptionMismatch, High, ItemDescription)
  }

  function QuantityIn(item: Item, thr: real, th: Theory): Option<Dec> {
    if item.quantity.confidence >= thr then NumberIn(item.quantity.value, th) else None
  }

  /** Quantities that all are known raise a finding when one is not positive, or two are different numbers. */
  predicate QuantityRaises(items: seq<Item>, thr: real, th: Theory, t: Tag) {
    && (forall i :: 0 <= i < |items| ==> QuantityIn(items[i], thr, th).Some?)
    && if exists i :: 0 <= i < |items| && QuantityIn(items[i], thr, th).value.coefficient <= 0
       then t == Tag(LowConfidenceExtraction, Medium, ItemQuantity)
       else
         && t == Tag(QuantityMismatch, High, ItemQuantity)
         && exists i, j :: 0 <= i < |items| && 0 <= j < |items|
              && !SameValue(QuantityIn(items[i], thr, th).value, QuantityIn(items[j], thr, th).value)
  }

  /** The items filed under the SKU, one from each document. */
  predicate FiledRow(docs: seq<Document>, sku: string, rows: seq<nat>, thr: real, th: Theory) {
    && C.Row(Filers(docs), rows)
    && forall j :: 0 <= j < |docs| ==> IsFiled(Filers(docs)[j].items, rows[j], sku, thr, th)
  }

  /** What a SKU raises: each tag at most once. */
  ghost predicate SkuRaises(docs: seq<Document>, sku: string, thr: real, th: Theory, t: Tag) {
    if SomeLack(docs, sku, thr, th) then AbsenceRaises(docs, sku, thr, th, t)
    else
      exists rows :: FiledRow(docs, sku, rows, thr, th)
        && (WordingRaises(C.ItemsOf(Filers(docs), rows), thr, th, t)
            || QuantityRaises(C.ItemsOf(Filers(docs), rows), thr, th, t))
  }

  // ---------------------------------------------------------------------------------------------
  // What is on file
  // ---------------------------------------------------------------------------------------------

  lemma {:induction false} MapHoldsLast(items: seq<Item>, k: nat, sku: string, thr: real, th: Theory)
    requires IsFiled(items, k, sku, thr, th)
    ensures Lookup(ItemMap(items, thr, th), sku) == Some(items[k])
  {
    var last := |items| - 1;
    KeyIsCarried(items[last], sku, thr, th);
    if k < last {
      assert forall n :: 0 <= n < last ==> items[..last][n] == items[n];
      MapHoldsLast(items[..last], k, sku, thr, th);
    }
  }

  lemma {:induction false} LastIsFiled(items: seq<Item>, sku: string, thr: real, th: Theory) returns (k: nat)
    requires exists n :: 0 <= n < |items| && Carries(items[n], sku, thr, th)
    ensures IsFiled(items, k, sku, thr, th)
  {
    k := |items| - 1;
    if !Carries(items[k], sku, thr, th) {
      var last := k;
      assert forall n :: 0 <= n < last ==> items[..last][n] == items[n];
      k := LastIsFiled(items[..last], sku, thr, th);
    }
  }

  lemma NothingFiled(items: seq<Item>, sku: string, thr: real, th: Theory)
    requires forall n :: 0 <= n < |items| ==> !Carries(items[n], sku, thr, th)
    ensures Lookup(ItemMap(items, thr, th), sku) == None
  {
    C.ItemMapHolds(items, thr, th, sku);
    forall n | 0 <= n < |items| ensures Key(items[n], thr, th) != Some(sku) { KeyIsCarried(items[n], sku, thr, th); }
  }

  /** What the procedure finds for a SKU in a document, by the items that carry it. */
  lemma FoundIsFiled(docs: seq<Document>, i: nat, sku: string, thr: real, th: Theory)
    requires i < |docs|
    ensures OnFile(docs, sku, thr, th)[i].None? <==> Lacking(docs, i, sku, thr, th)
    ensures forall k: nat :: IsFiled(Filers(docs)[i].items, k, sku, thr, th) ==>
              OnFile(docs, sku, thr, th)[i] == Some(Filers(docs)[i].items[k])
    ensures OnFile(docs, sku, thr, th)[i].Some? ==>
              exists k: nat :: IsFiled(Filers(docs)[i].items, k, sku, thr, th)
  {
    var items := Filers(docs)[i].items;
    MapIsOfFiler(docs, i, thr, th);
    if Lacking(docs, i, sku, thr, th) {
      NothingFiled(items, sku, thr, th);
    } else {
      var k := LastIsFiled(items, sku, thr, th);
      MapHoldsLast(items, k, sku, thr, th);
    }
    forall k: nat | IsFiled(items, k, sku, thr, th) ensures OnFile(docs, sku, thr, th)[i] == Some(items[k]) {
      MapHoldsLast(items, k, sku, thr, th);
    }
  }

  // ---------------------------------------------------------------------------------------------
  // A SKU that some document lacks
  // ---------------------------------------------------------------------------------------------

  lemma UnsureIsUncertain(docs: seq<Document>, t: DocType, thr: real)
    ensures UnsureType(docs, t, thr) <==> t in UncertainTypes(docs, thr)
  {
    forall i | 0 <= i < |docs| ensures Unsure(docs[i], thr) <==> UncertainItems(docs[i], thr) {
      forall k | 0 <= k < |docs[i].items|
        ensures SureItem(docs[i].items[k], thr) <==> !WeakItem(docs[i].items[k], thr)
      {
      }
    }
  }

  lemma ResemblesIsLikelySame(candidate: Item, filed: Item, thr: real, th: Theory)
    ensures Resembles(candidate, filed, thr, th) <==> LikelySame(candidate, filed, thr, th)
  {
    assert Truthy(candidate.description.value) <==> Stated(candidate.description.value);
    assert Truthy(filed.description.value) <==> Stated(filed.description.value);
  }

  lemma LikelyIsWrong(docs: seq<Document>, sku: string, thr: real, th: Theory)
    requires WrongSkuLikely(docs, sku, thr, th)
    ensures LikelyWrongSku(docs, OnFile(docs, sku, thr, th), thr, th)
  {
    var found := OnFile(docs, sku, thr, th);
    var i, n :| 0 <= i < |docs| && Lacking(docs, i, sku, thr, th) && 0 <= n < |docs[i].items|
                && ResemblesFiled(docs, docs[i].items[n], sku, thr, th);
    var candidate := docs[i].items[n];
    var j, k :| 0 <= j < |docs| && 0 <= k < |Filers(docs)[j].items|
                && IsFiled(Filers(docs)[j].items, k, sku, thr, th)
                && Resembles(candidate, Filers(docs)[j].items[k], thr, th);
    FoundIsFiled(docs, i, sku, thr, th);
    FoundIsFiled(docs, j, sku, thr, th);
    ResemblesIsLikelySame(candidate, Filers(docs)[j].items[k], thr, th);
    assert found[i].None? && found[j].Some? && LikelySame(docs[i].items[n], found[j].value, thr, th);
  }

  lemma WrongIsLikely(docs: seq<Document>, sku: string, thr: real, th: Theory)
    requires LikelyWrongSku(docs, OnFile(docs, sku, thr, th), thr, th)
    ensures WrongSkuLikely(docs, sku, thr, th)
  {
    var found := OnFile(docs, sku, thr, th);
    var i, j :| 0 <= i < |docs| && found[i].None? && 0 <= j < |docs| && found[j].Some?
                && exists n :: 0 <= n < |docs[i].items| && LikelySame(docs[i].items[n], found[j].value, thr, th);
    var n :| 0 <= n < |docs[i].items| && LikelySame(docs[i].items[n], found[j].value, thr, th);
    FoundIsFiled(docs, i, sku, thr, th);
    FoundIsFiled(docs, j, sku, thr, th);
    var k: nat :| IsFiled(Filers(docs)[j].items, k, sku, thr, th);
    ResemblesIsLikelySame(docs[i].items[n], found[j].value, thr, th);
    assert ResemblesFiled(docs, docs[i].items[n], sku, thr, th);
  }

  lemma SomeLackIff(docs: seq<Document>, sku: string, thr: real, th: Theory)
    ensures var found := OnFile(docs, sku, thr, th);
            SomeLack(docs, sku, thr, th) <==> exists i :: 0 <= i < |found| && found[i].None?
  {
    forall i | 0 <= i < |docs| ensures OnFile(docs, sku, thr, th)[i].None? <==> Lacking(docs, i, sku, thr, th) {
      FoundIsFiled(docs, i, sku, thr, th);
    }
  }

  lemma AbsenceUnsureIff(docs: seq<Document>, sku: string, thr: real, th: Theory)
    ensures var found := OnFile(docs, sku, thr, th);
            AbsenceUnsure(docs, sku, thr, th) <==>
            exists i :: 0 <= i < |docs| && found[i].None? && docs[i].docType in UncertainTypes(docs, thr)
  {
    forall i | 0 <= i < |docs|
      ensures OnFile(docs, sku, thr, th)[i].None? <==> Lacking(docs, i, sku, thr, th)
      ensures UnsureType(docs, docs[i].docType, thr) <==> docs[i].docType in UncertainTypes(docs, thr)
    {
      FoundIsFiled(docs, i, sku, thr, th);
      UnsureIsUncertain(docs, docs[i].docType, thr);
    }
  }

  lemma WrongSkuLikelyIff(docs: seq<Document>, sku: string, thr: real, th: Theory)
    ensures WrongSkuLikely(docs, sku, thr, th) <==> LikelyWrongSku(docs, OnFile(docs, sku, thr, th), thr, th)
  {
    if WrongSkuLikely(docs, sku, thr, th) { LikelyIsWrong(docs, sku, thr, th); }
    if LikelyWrongSku(docs, OnFile(docs, sku, thr, th), thr, th) { WrongIsLikely(docs, sku, thr, th); }
  }

  lemma AbsentCases(
      docs: seq<Document>, found: seq<Option<Item>>, unsure: bool, likely: bool, thr: real, th: Theory)
    requires |found| == |docs| && (likely <==> LikelyWrongSku(docs, found, thr, th))
    requires unsure <==>
             exists i :: 0 <= i < |docs| && found[i].None? && docs[i].docType in UncertainTypes(docs, thr)
    ensures AbsentSku(docs, found, thr, th) ==
            if unsure then [] else if likely then [Mismatch(WrongSku, High, ItemSku, None, None)]
            else [Mismatch(MissingItem, High, Items, None, None)]
  {
  }

  /**
   * A SKU that some document lacks has no finding when a document of a type that lacks it is unsure.
   * Otherwise it has exactly one of high severity: a wrong SKU when some item of a document without
   * it resembles an item filed under it, and a missing item when none does.
   */
  lemma AbsentSkuFinding(docs: seq<Document>, sku: string, thr: real, th: Theory)
    requires SomeLack(docs, sku, thr, th)
    ensures SkuCheck(docs, sku, thr, th) ==
            if AbsenceUnsure(docs, sku, thr, th) then []
            else if WrongSkuLikely(docs, sku, thr, th) then [Mismatch(WrongSku, High, ItemSku, None, None)]
            else [Mismatch(MissingItem, High, Items, None, None)]
  {
    SomeLackIff(docs, sku, thr, th);
    AbsenceUnsureIff(docs, sku, thr, th);
    WrongSkuLikelyIff(docs, sku, thr, th);
    AbsentCases(docs, OnFile(docs, sku, thr, th), AbsenceUnsure(docs, sku, thr, th),
        WrongSkuLikely(docs, sku, thr, th), thr, th);
  }

  // ---------------------------------------------------------------------------------------------
  // A SKU that every document has
  // ---------------------------------------------------------------------------------------------

  lemma RowExists(docs: seq<Document>, sku: string, thr: real, th: Theory) returns (rows: seq<nat>)
    requires !SomeLack(docs, sku, thr, th)
    ensures FiledRow(docs, sku, rows, thr, th)
  {
    rows := [];
    for j := 0 to |docs|
      invariant |rows| == j
      invariant forall i :: 0 <= i < j ==> IsFiled(Filers(docs)[i].items, rows[i], sku, thr, th)
    {
      assert !Lacking(docs, j, sku, thr, th);
      var k := LastIsFiled(Filers(docs)[j].items, sku, thr, th);
      rows := rows + [k];
    }
  }

  lemma RowIsOnFile(docs: seq<Document>, sku: string, rows: seq<nat>, thr: real, th: Theory)
    requires FiledRow(docs, sku, rows, thr, th)
    ensures (forall i :: 0 <= i < |docs| ==> OnFile(docs, sku, thr, th)[i].Some?)
            && Values(OnFile(docs, sku, thr, th)) == C.ItemsOf(Filers(docs), rows)
  {
    forall i | 0 <= i < |docs| ensures OnFile(docs, sku, thr, th)[i] == Some(C.ItemsOf(Filers(docs), rows)[i]) {
      FoundIsFiled(docs, i, sku, thr, th);
    }
  }

  lemma WordedIsDescribed(items: seq<Item>, thr: real, th: Theory)
    ensures Wordings(items, th) == Descriptions(items, th)
    ensures forall i :: 0 <= i < |items| ==> (Worded(items[i], thr, th) <==> Described(items[i], thr, th))
  {
    forall i | 0 <= i < |items| ensures Wording(items[i], th) == Description(items[i], th) {
      assert Truthy(items[i].description.value) <==> Stated(items[i].description.value);
    }
  }

  lemma WordingTally(items: seq<Item>, thr: real, th: Theory, t: Tag)
    ensures Tally(DescriptionCheck(items, thr, th), t) == One(WordingRaises(items, thr, th, t))
  {
    WordedIsDescribed(items, thr, th);
    DifferIsNotSame(Wordings(items, th));
    AlikeIsClose(Wordings(items, th), th);
    TallyOne(Flag(PossibleTextVariation, Medium, ItemDescription), t);
    TallyOne(Flag(ItemDescriptionMismatch, High, ItemDescription), t);
  }

  lemma QuantityIsIn(item: Item, thr: real, th: Theory)
    ensures Quantity(item, thr, th) ==
            if QuantityIn(item, thr, th).Some? then Some(Real(QuantityIn(item, thr, th).value)) else None
  {
    ParseIsNumberIn(item.quantity.value, th);
  }

  /** What known quantities raise, on their numbers. */
  predicate NumbersRaise(ds: seq<Dec>, t: Tag) {
    if exists i :: 0 <= i < |ds| && ds[i].coefficient <= 0 then t == Tag(LowConfidenceExtraction, Medium, ItemQuantity)
    else
      && t == Tag(QuantityMismatch, High, ItemQuantity)
      && exists i, j :: 0 <= i < |ds| && 0 <= j < |ds| && !SameValue(ds[i], ds[j])
  }

  lemma RealQuantities(ds: seq<Dec>, q: seq<real>)
    requires |q| == |ds| && forall i :: 0 <= i < |ds| ==> q[i] == Real(ds[i])
    ensures (exists i :: 0 <= i < |q| && q[i] <= 0.0) <==> exists i :: 0 <= i < |ds| && ds[i].coefficient <= 0
    ensures AllSame(q) <==> forall i, j :: 0 <= i < |ds| && 0 <= j < |ds| ==> SameValue(ds[i], ds[j])
  {
    forall i, j | 0 <= i < |ds| && 0 <= j < |ds|
      ensures q[i] == q[j] <==> SameValue(ds[i], ds[j])
      ensures q[i] <= 0.0 <==> ds[i].coefficient <= 0
    {
      SameReal(ds[i], ds[j]);
    }
  }

  lemma NumbersTally(q: seq<real>, price: Option<(real, DocType)>, ds: seq<Dec>, t: Tag)
    requires |q| == |ds| && forall i :: 0 <= i < |ds| ==> q[i] == Real(ds[i])
    ensures Tally(if exists i :: 0 <= i < |q| && q[i] <= 0.0 then [Uncertain(ItemQuantity)]
                  else if AllSame(q) then []
                  else [QuantityConflict(q, price)], t) == One(NumbersRaise(ds, t))
  {
    RealQuantities(ds, q);
    TallyOne(Uncertain(ItemQuantity), t);
    if !AllSame(q) { TallyOne(QuantityConflict(q, price), t); }
  }

  lemma KnownQuantities(
      docs: seq<Document>, items: seq<Item>, sku: string, ds: seq<Dec>, thr: real, th: Theory, t: Tag)
    requires |ds| == |items| && forall i :: 0 <= i < |items| ==> QuantityIn(items[i], thr, th) == Some(ds[i])
    ensures Tally(QuantityCheck(docs, items, sku, thr, th), t) == One(NumbersRaise(ds, t))
  {
    var q := seq(|ds|, i requires 0 <= i < |ds| => Real(ds[i]));
    forall i | 0 <= i < |items| ensures Quantity(items[i], thr, th) == Some(q[i]) { QuantityIsIn(items[i], thr, th); }
    SpecifiedQuantities(docs, items, sku, thr, th, q);
    NumbersTally(q, TrustedPrice(docs, sku, thr, th), ds, t);
  }

  lemma UnknownQuantity(docs: seq<Document>, items: seq<Item>, sku: string, i: nat, thr: real, th: Theory)
    requires i < |items| && QuantityIn(items[i], thr, th).None?
    ensures QuantityCheck(docs, items, sku, thr, th) == []
  {
    QuantityIsIn(items[i], thr, th);
  }

  lemma QuantityTally(docs: seq<Document>, items: seq<Item>, sku: string, thr: real, th: Theory, t: Tag)
    ensures Tally(QuantityCheck(docs, items, sku, thr, th), t) == One(QuantityRaises(items, thr, th, t))
  {
    if forall i :: 0 <= i < |items| ==> QuantityIn(items[i], thr, th).Some? {
      var ds := seq(|items|, i requires 0 <= i < |items| => QuantityIn(items[i], thr, th).value);
      KnownQuantities(docs, items, sku, ds, thr, th, t);
    } else {
      var i: nat :| i < |items| && QuantityIn(items[i], thr, th).None?;
      UnknownQuantity(docs, items, sku, i, thr, th);
    }
  }

  lemma RowTallies(docs: seq<Document>, sku: string, rows: seq<nat>, thr: real, th: Theory, t: Tag)
    requires FiledRow(docs, sku, rows, thr, th)
    ensures var items := C.ItemsOf(Filers(docs), rows);
            Tally(SkuCheck(docs, sku, thr, th), t) ==
            One(WordingRaises(items, thr, th, t) || QuantityRaises(items, thr, th, t))
  {
    var items := C.ItemsOf(Filers(docs), rows);
    RowIsOnFile(docs, sku, rows, thr, th);
    TallyConcat(DescriptionCheck(items, thr, th), QuantityCheck(docs, items, sku, thr, th), t);
    WordingTally(items, thr, th, t);
    QuantityTally(docs, items, sku, thr, th, t);
  }

  lemma RowIsUnique(docs: seq<Document>, sku: string, rows: seq<nat>, others: seq<nat>, thr: real, th: Theory)
    requires FiledRow(docs, sku, rows, thr, th) && FiledRow(docs, sku, others, thr, th)
    ensures rows == others
  {
    forall j | 0 <= j < |docs| ensures rows[j] == others[j] {
      assert IsFiled(Filers(docs)[j].items, rows[j], sku, thr, th);
      assert IsFiled(Filers(docs)[j].items, others[j], sku, thr, th);
    }
  }

  lemma PresentSkuTally(docs: seq<Document>, sku: string, thr: real, th: Theory, t: Tag)
    requires !SomeLack(docs, sku, thr, th)
    ensures Tally(SkuCheck(docs, sku, thr, th), t) == One(SkuRaises(docs, sku, thr, th, t))
  {
    var row := RowExists(docs, sku, thr, th);
    RowTallies(docs, sku, row, thr, th, t);
    forall rows | FiledRow(docs, sku, rows, thr, th) ensures rows == row {
      RowIsUnique(docs, sku, rows, row, thr, th);
    }
  }

  /** What a SKU contributes to the findings. */
  lemma SkuTally(docs: seq<Document>, sku: string, thr: real, th: Theory, t: Tag)
    ensures Tally(SkuCheck(docs, sku, thr, th), t) == One(SkuRaises(docs, sku, thr, th, t))
  {
    if SomeLack(docs, sku, thr, th) {
      AbsentSkuFinding(docs, sku, thr, th);
      TallyOne(Mismatch(WrongSku, High, ItemSku, None, None), t);
      TallyOne(Mismatch(MissingItem, High, Items, None, None), t);
    } else {
      PresentSkuTally(docs, sku, thr, th, t);
    }
  }

  // ---------------------------------------------------------------------------------------------
  // All SKUs, all findings
  // ---------------------------------------------------------------------------------------------

  /** The SKUs that some document has. */
  function SkusOf(docs: seq<Document>, thr: real, th: Theory): set<string> {
    set i, k | 0 <= i < |docs| && 0 <= k < |Filers(docs)[i].items|
               && Carries(Filers(docs)[i].items[k], SkuOf(Filers(docs)[i].items[k], th), thr, th)
      :: SkuOf(Filers(docs)[i].items[k], th)
  }

  predicate SomeHas(docs: seq<Document>, sku: string, thr: real, th: Theory) {
    exists i :: 0 <= i < |docs| && Has(Filers(docs)[i], sku, thr, th)
  }

  lemma SkusOfHave(docs: seq<Document>, sku: string, thr: real, th: Theory)
    ensures sku in SkusOf(docs, thr, th) <==> SomeHas(docs, sku, thr, th)
  {
    if SomeHas(docs, sku, thr, th) {
      var i :| 0 <= i < |docs| && Has(Filers(docs)[i], sku, thr, th);
      var k :| 0 <= k < |Filers(docs)[i].items| && Carries(Filers(docs)[i].items[k], sku, thr, th);
      assert SkuOf(Filers(docs)[i].items[k], th) == sku;
    }
  }

  lemma AllSkusHave(docs: seq<Document>, sku: string, thr: real, th: Theory)
    ensures sku in AllSkus(docs, thr, th) <==> SomeHas(docs, sku, thr, th)
  {
    forall i | 0 <= i < |docs|
      ensures sku in MapFor(docs, docs[i].docType, thr, th) <==> Has(Filers(docs)[i], sku, thr, th)
    {
      FoundIsFiled(docs, i, sku, thr, th);
    }
  }

  ghost function SkusRaising(docs: seq<Document>, skus: set<string>, thr: real, th: Theory, t: Tag): set<string> {
    set sku | sku in skus && SkuRaises(docs, sku, thr, th, t)
  }

  function SetOf(skus: seq<string>): set<string> {
    set sku | sku in skus
  }

  function SkuCount(docs: seq<Document>, skus: seq<string>, thr: real, th: Theory, t: Tag): nat {
    Tally(SkuChecks(docs, skus, thr, th), t)
  }

  ghost function RaisingCount(docs: seq<Document>, skus: seq<string>, thr: real, th: Theory, t: Tag): nat {
    |SkusRaising(docs, SetOf(skus), thr, th, t)|
  }

  lemma CountsStart(docs: seq<Document>, thr: real, th: Theory, t: Tag)
    ensures SkuCount(docs, [], thr, th, t) == 0 && RaisingCount(docs, [], thr, th, t) == 0
  {
    assert SkusRaising(docs, SetOf([]), thr, th, t) == {};
  }

  lemma RaisingCountGrows(docs: seq<Document>, skus: seq<string>, thr: real, th: Theory, t: Tag)
    requires skus != [] && skus[|skus| - 1] !in skus[..|skus| - 1]
    ensures RaisingCount(docs, skus, thr, th, t) ==
            RaisingCount(docs, skus[..|skus| - 1], thr, th, t) + One(SkuRaises(docs, skus[|skus| - 1], thr, th, t))
  {
    var rest, sku := skus[..|skus| - 1], skus[|skus| - 1];
    assert skus == rest + [sku];
    assert SkusRaising(docs, SetOf(skus), thr, th, t) ==
           SkusRaising(docs, SetOf(rest), thr, th, t) + if SkuRaises(docs, sku, thr, th, t) then {sku} else {};
  }

  lemma SkuCountGrows(docs: seq<Document>, skus: seq<string>, thr: real, th: Theory, t: Tag)
    requires skus != []
    ensures SkuCount(docs, skus, thr, th, t) ==
            SkuCount(docs, skus[..|skus| - 1], thr, th, t) + One(SkuRaises(docs, skus[|skus| - 1], thr, th, t))
  {
    var rest, sku := skus[..|skus| - 1], skus[|skus| - 1];
    SkuTally(docs, sku, thr, th, t);
    TallyConcat(SkuChecks(docs, rest, thr, th), SkuCheck(docs, sku, thr, th), t);
  }

  lemma {:induction false} SkusTally(docs: seq<Document>, skus: seq<string>, thr: real, th: Theory, t: Tag)
    requires forall i, j :: 0 <= i < j < |skus| ==> skus[i] != skus[j]
    ensures SkuCount(docs, skus, thr, th, t) == RaisingCount(docs, skus, thr, th, t)
  {
    if skus == [] {
      CountsStart(docs, thr, th, t);
    } else {
      SkusTally(docs, skus[..|skus| - 1], thr, th, t);
      SkuCountGrows(docs, skus, thr, th, t);
      RaisingCountGrows(docs, skus, thr, th, t);
    }
  }

  predicate SomeEmpty(docs: seq<Document>) {
    exists i :: 0 <= i < |docs| && |docs[i].items| == 0
  }

  /** How many findings of the tag the documents call for. */
  ghost function Expected(documents: map<DocType, Document>, thr: real, th: Theory, t: Tag): nat {
    var docs := InOrder(documents);
    RaisedByDocuments(documents, thr, th, t)
    + |SkusRaising(docs, SkusOf(docs, thr, th), thr, th, t)|
    + One(t == Tag(LowConfidenceExtraction, Medium, Items) && SomeEmpty(docs))
  }

  lemma LinesTally(docs: seq<Document>, thr: real, th: Theory, t: Tag)
    ensures Tally(LineMismatches(docs, thr, th), t) ==
            Tally(ItemChecks(docs, thr, th), t) + |SkusRaising(docs, SkusOf(docs, thr, th), thr, th, t)|
            + One(t == Tag(LowConfidenceExtraction, Medium, Items) && SomeEmpty(docs))
  {
    var listed := StringOrder.SortedSet(AllSkus(docs, thr, th));
    var items, skus := ItemChecks(docs, thr, th), SkuChecks(docs, listed, thr, th);
    TallyConcat(items, skus, t);
    TallyConcat(items + skus, EmptyCheck(docs), t);
    TallyOne(Uncertain(Items), t);
    SkusTally(docs, listed, thr, th, t);
    forall sku ensures sku in SkusOf(docs, thr, th) <==> sku in listed {
      SkusOfHave(docs, sku, thr, th);
      AllSkusHave(docs, sku, thr, th);
    }
    assert SetOf(listed) == SkusOf(docs, thr, th);
  }

  /**
   * For every dictionary of documents, threshold, similarity and normalisation, and every kind,
   * severity and field, a reconciliation reports exactly as many findings of that kind, severity and
   * field as the documents call for.
   */
  lemma FindingsCounted(documents: map<DocType, Document>, thr: real, th: Theory, t: Tag)
    ensures Tally(Reconcile(documents, thr, th).1, t) == Expected(documents, thr, th, t)
  {
    var docs := InOrder(documents);
    var header, totals, lines :=
      HeaderMismatches(documents, thr, th), TotalCheck(docs, thr, th), LineMismatches(docs, thr, th);
    TallyConcat(header, totals, t);
    TallyConcat(header + totals, lines, t);
    HeaderTally(documents, thr, th, t);
    LinesTally(docs, thr, th, t);
  }
}
