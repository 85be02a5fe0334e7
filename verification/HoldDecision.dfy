/** What a HOLD decision means: a conflict that the evidence at hand proves. */
module HoldDecision {
  import opened Wrappers
  import opened Reconciliation
  import opened ItemOrder
  import C = ClearDecision
  import opened Filing
  import StringOrder

  /** The document is confidently of another type than the slot it was uploaded to. */
  predicate WrongType(d: Document, thr: real) {
    d.detected.Some? && d.typeConfidence >= thr && d.detected.value != d.docType
  }

  /** Two texts differ, and two of them are no close variation of each other. */
  predicate TextsConflict(texts: seq<string>, th: Theory) {
    && (exists i, j :: 0 <= i < j < |texts| && texts[i] != texts[j])
    && (exists i, j :: 0 <= i < j < |texts| && !Close(texts[i], texts[j], th))
  }

  /** Confident everywhere, and in conflict after normalisation. */
  predicate FieldConflict(docs: seq<Document>, f: TextField, thr: real, th: Theory) {
    && (forall i :: 0 <= i < |docs| ==> !Weak(f.Of(docs[i]), thr))
    && TextsConflict(NormalisedValues(docs, f, th), th)
  }

  predicate HeaderConflict(docs: seq<Document>, thr: real, th: Theory) {
    || (exists i :: 0 <= i < |docs| && WrongType(docs[i], thr))
    || FieldConflict(docs, RecipientField, thr, th)
    || FieldConflict(docs, DestinationField, thr, th)
    || FieldConflict(docs, SenderField, thr, th)
    || !C.ShipmentsAgree(docs, th)
  }

  /** Two confident items of one document carry one SKU that is not blank. */
  ghost predicate Duplicated(docs: seq<Document>, thr: real, th: Theory) {
    exists i, k :: 0 <= i < |docs| && C.Collides(docs[i].items, thr, th, k)
  }

  /** A confident item of the document carries the SKU. */
  predicate Filed(d: Document, sku: string, thr: real, th: Theory) {
    exists k :: 0 <= k < |d.items| && Key(d.items[k], thr, th) == Some(sku)
  }

  predicate UncertainType(docs: seq<Document>, t: DocType, thr: real) {
    exists i :: 0 <= i < |docs| && docs[i].docType == t && UncertainItems(docs[i], thr)
  }

  /** Some document lacks the SKU, and the items of every type that lacks it are certain. */
  predicate ProvenAbsent(docs: seq<Document>, sku: string, thr: real, th: Theory) {
    var filed := Filers(docs);
    && (exists j :: 0 <= j < |filed| && !Filed(filed[j], sku, thr, th))
    && (forall j :: 0 <= j < |filed| && !Filed(filed[j], sku, thr, th) ==> !UncertainType(docs, filed[j].docType, thr))
  }

  predicate AllKeyed(items: seq<Item>, sku: string, thr: real, th: Theory) {
    forall i :: 0 <= i < |items| ==> Key(items[i], thr, th) == Some(sku)
  }

  /** All are confidently described, and the descriptions are in conflict. */
  predicate DescriptionsConflict(items: seq<Item>, thr: real, th: Theory) {
    (forall i :: 0 <= i < |items| ==> Described(items[i], thr, th)) && TextsConflict(Descriptions(items, th), th)
  }

  /** All quantities are confident, parse and are positive, and two of them differ. */
  predicate QuantitiesConflict(items: seq<Item>, thr: real, th: Theory) {
    && (forall i :: 0 <= i < |items| ==> Quantity(items[i], thr, th).Some? && Quantity(items[i], thr, th).value > 0.0)
    && (exists i, j :: 0 <= i < j < |items| && Quantity(items[i], thr, th) != Quantity(items[j], thr, th))
  }

  predicate ItemsConflict(items: seq<Item>, thr: real, th: Theory) {
    DescriptionsConflict(items, thr, th) || QuantitiesConflict(items, thr, th)
  }

  /** Items filed under the SKU, one from each document, are in conflict. */
  ghost predicate RowConflict(docs: seq<Document>, sku: string, thr: real, th: Theory) {
    exists rows :: C.Row(Filers(docs), rows) && AllKeyed(C.ItemsOf(Filers(docs), rows), sku, thr, th)
                   && ItemsConflict(C.ItemsOf(Filers(docs), rows), thr, th)
  }

  ghost predicate SkuConflict(docs: seq<Document>, sku: string, thr: real, th: Theory) {
    && (exists i :: 0 <= i < |docs| && Filed(Filers(docs)[i], sku, thr, th))
    && (ProvenAbsent(docs, sku, thr, th) || RowConflict(docs, sku, thr, th))
  }

  // ---------------------------------------------------------------------------------------------
  // Header
  // ---------------------------------------------------------------------------------------------

  lemma MaterialType(d: Document, thr: real)
    ensures AnyMaterial(TypeCheck(d, thr)) <==> WrongType(d, thr)
  {
    if WrongType(d, thr) { assert Material(TypeCheck(d, thr)[0]); }
  }

  lemma {:induction false} MaterialTypes(docs: seq<Document>, thr: real)
    ensures AnyMaterial(TypeChecks(docs, thr)) <==> exists i :: 0 <= i < |docs| && WrongType(docs[i], thr)
  {
    if docs != [] {
      var rest, d := docs[..|docs| - 1], docs[|docs| - 1];
      MaterialTypes(rest, thr);
      MaterialType(d, thr);
      AnyMaterialConcat(TypeChecks(rest, thr), TypeCheck(d, thr));
      assert forall i :: 0 <= i < |rest| ==> rest[i] == docs[i];
    }
  }

  lemma ConflictByValues(texts: seq<string>, th: Theory)
    ensures TextsConflict(texts, th) <==> !AllSame(texts) && !CloseVariation(texts, th)
  {
  }

  lemma MaterialText(docs: seq<Document>, f: TextField, thr: real, th: Theory)
    ensures AnyMaterial(CompareText(docs, f, thr, th)) <==> FieldConflict(docs, f, thr, th)
  {
    ConflictByValues(NormalisedValues(docs, f, th), th);
    if FieldConflict(docs, f, thr, th) {
      assert CompareText(docs, f, thr, th) == [f.Conflict()];
      assert Material(CompareText(docs, f, thr, th)[0]);
    }
  }

  lemma {:induction false} IdsNotMaterial(docs: seq<Document>, thr: real)
    ensures !AnyMaterial(IdChecks(docs, thr))
  {
    if docs != [] { IdsNotMaterial(docs[..|docs| - 1], thr); }
  }

  lemma MaterialShipmentIds(docs: seq<Document>, th: Theory)
    ensures AnyMaterial(ShipmentCheck(docs, th)) <==> !C.ShipmentsAgree(docs, th)
  {
    C.ShipmentCheckEmpty(docs, th);
    if ShipmentCheck(docs, th) != [] { assert Material(ShipmentCheck(docs, th)[0]); }
  }

  lemma MaterialTotals(docs: seq<Document>, thr: real, th: Theory)
    ensures AnyMaterial(TotalCheck(docs, thr, th)) <==> !C.TotalsAgree(docs, thr, th)
  {
    C.TotalCheckEmpty(docs, thr, th);
    if TotalCheck(docs, thr, th) != [] { assert Material(TotalCheck(docs, thr, th)[0]); }
  }

  lemma MaterialHeader(documents: map<DocType, Document>, thr: real, th: Theory)
    ensures AnyMaterial(HeaderMismatches(documents, thr, th)) <==> HeaderConflict(InOrder(documents), thr, th)
  {
    var docs := InOrder(documents);
    var missing, types := MissingDocuments(documents), TypeChecks(docs, thr);
    var recipients, destinations :=
        CompareText(docs, RecipientField, thr, th), CompareText(docs, DestinationField, thr, th);
    var senders, ids := CompareText(docs, SenderField, thr, th), IdChecks(docs, thr);
    MaterialTypes(docs, thr);
    MaterialText(docs, RecipientField, thr, th);
    MaterialText(docs, DestinationField, thr, th);
    MaterialText(docs, SenderField, thr, th);
    IdsNotMaterial(docs, thr);
    MaterialShipmentIds(docs, th);
    AnyMaterialConcat(missing, types);
    AnyMaterialConcat(missing + types, recipients);
    AnyMaterialConcat(missing + types + recipients, destinations);
    AnyMaterialConcat(missing + types + recipients + destinations, senders);
    AnyMaterialConcat(missing + types + recipients + destinations + senders, ids);
    AnyMaterialConcat(missing + types + recipients + destinations + senders + ids, ShipmentCheck(docs, th));
  }

  // ---------------------------------------------------------------------------------------------
  // Items
  // ---------------------------------------------------------------------------------------------

  lemma RowsNotMaterial(d: Document, thr: real, th: Theory)
    requires DuplicateSkus(d, thr, th) == []
    ensures !AnyMaterial(RowChecks(d, thr, th))
  {
    var own := DuplicateSkus(d, thr, th) + if d.complete then [] else [Uncertain(Items)];
    WeakRowsNotMaterial(d.items, thr);
    AnyMaterialConcat(own, WeakRows(d.items, thr));
  }

  lemma {:induction false} NoDuplicatesNotMaterial(docs: seq<Document>, thr: real, th: Theory)
    requires NoDuplicates(docs, thr, th)
    ensures !AnyMaterial(ItemChecks(docs, thr, th))
  {
    if docs != [] {
      var rest, d := docs[..|docs| - 1], docs[|docs| - 1];
      NoDuplicatesNotMaterial(rest, thr, th);
      RowsNotMaterial(d, thr, th);
      AnyMaterialConcat(ItemChecks(rest, thr, th), RowChecks(d, thr, th));
    }
  }

  lemma DuplicatedMeansDuplicates(docs: seq<Document>, thr: real, th: Theory)
    ensures Duplicated(docs, thr, th) <==> !NoDuplicates(docs, thr, th)
  {
    forall i | 0 <= i < |docs|
      ensures DuplicateSkus(docs[i], thr, th) == [] <==> forall k :: !C.Collides(docs[i].items, thr, th, k)
    {
      C.DuplicateSkusEmpty(docs[i], thr, th);
    }
  }

  lemma MaterialItems(docs: seq<Document>, thr: real, th: Theory)
    ensures AnyMaterial(ItemChecks(docs, thr, th)) <==> Duplicated(docs, thr, th)
  {
    DuplicatedMeansDuplicates(docs, thr, th);
    if NoDuplicates(docs, thr, th) {
      NoDuplicatesNotMaterial(docs, thr, th);
    } else {
      var i: nat :| i < |docs| && DuplicateSkus(docs[i], thr, th) != [];
      DuplicatesAreMaterial(docs, thr, th, i);
    }
  }

  // ---------------------------------------------------------------------------------------------
  // One SKU
  // ---------------------------------------------------------------------------------------------

  lemma FiledIsFound(docs: seq<Document>, sku: string, j: nat, thr: real, th: Theory)
    requires j < |docs|
    ensures OnFile(docs, sku, thr, th)[j].Some? <==> Filed(Filers(docs)[j], sku, thr, th)
  {
    MapIsOfFiler(docs, j, thr, th);
    C.ItemMapHolds(Filers(docs)[j].items, thr, th, sku);
  }

  lemma FoundIsUnique(docs: seq<Document>, sku: string, j: nat, k: nat, thr: real, th: Theory)
    requires !Duplicated(docs, thr, th)
    requires j < |docs| && k < |Filers(docs)[j].items| && Key(Filers(docs)[j].items[k], thr, th) == Some(sku)
    ensures OnFile(docs, sku, thr, th)[j] == Some(Filers(docs)[j].items[k])
  {
    var items := Filers(docs)[j].items;
    MapIsOfFiler(docs, j, thr, th);
    C.ItemMapHolds(items, thr, th, sku);
    assert !C.Collides(items, thr, th, sku);
    var n: nat :| n < |items| && Key(items[n], thr, th) == Some(sku) && ItemMap(items, thr, th)[sku] == items[n];
    assert n == k;
  }

  lemma UncertainByType(docs: seq<Document>, t: DocType, thr: real)
    ensures t in UncertainTypes(docs, thr) <==> UncertainType(docs, t, thr)
  {
  }

  /** What is found for a SKU, by the documents that are looked up. */
  lemma FoundByFilers(docs: seq<Document>, sku: string, j: nat, thr: real, th: Theory)
    requires j < |docs|
    ensures OnFile(docs, sku, thr, th)[j].None? <==> !Filed(Filers(docs)[j], sku, thr, th)
    ensures docs[j].docType in UncertainTypes(docs, thr) <==> UncertainType(docs, Filers(docs)[j].docType, thr)
  {
    FiledIsFound(docs, sku, j, thr, th);
    MapIsOfFiler(docs, j, thr, th);
    UncertainByType(docs, docs[j].docType, thr);
  }

  /** Some type that lacks the SKU has uncertain items. */
  lemma UncertainByFilers(docs: seq<Document>, sku: string, found: seq<Option<Item>>, thr: real, th: Theory)
    requires found == OnFile(docs, sku, thr, th)
    ensures var filed := Filers(docs);
            (exists i :: 0 <= i < |docs| && found[i].None? && docs[i].docType in UncertainTypes(docs, thr)) <==>
            (exists j :: 0 <= j < |filed| && !Filed(filed[j], sku, thr, th)
                         && UncertainType(docs, filed[j].docType, thr))
  {
    forall j | 0 <= j < |docs|
      ensures found[j].None? <==> !Filed(Filers(docs)[j], sku, thr, th)
      ensures docs[j].docType in UncertainTypes(docs, thr) <==> UncertainType(docs, Filers(docs)[j].docType, thr)
    {
      FoundByFilers(docs, sku, j, thr, th);
    }
  }

  lemma AbsentIsChecked(docs: seq<Document>, sku: string, thr: real, th: Theory)
    requires exists j :: 0 <= j < |docs| && OnFile(docs, sku, thr, th)[j].None?
    ensures SkuCheck(docs, sku, thr, th) == AbsentSku(docs, OnFile(docs, sku, thr, th), thr, th)
  {
  }

  lemma AbsentIsMaterial(docs: seq<Document>, found: seq<Option<Item>>, thr: real, th: Theory)
    requires |found| == |docs|
    ensures AnyMaterial(AbsentSku(docs, found, thr, th)) <==>
            !(exists i :: 0 <= i < |docs| && found[i].None? && docs[i].docType in UncertainTypes(docs, thr))
  {
    var absent := AbsentSku(docs, found, thr, th);
    if absent != [] { assert Material(absent[0]); }
  }

  lemma MaterialAbsent(docs: seq<Document>, sku: string, thr: real, th: Theory)
    requires exists j :: 0 <= j < |docs| && !Filed(Filers(docs)[j], sku, thr, th)
    ensures AnyMaterial(SkuCheck(docs, sku, thr, th)) <==> ProvenAbsent(docs, sku, thr, th)
  {
    var j :| 0 <= j < |docs| && !Filed(Filers(docs)[j], sku, thr, th);
    FoundByFilers(docs, sku, j, thr, th);
    AbsentIsChecked(docs, sku, thr, th);
    UncertainByFilers(docs, sku, OnFile(docs, sku, thr, th), thr, th);
    AbsentIsMaterial(docs, OnFile(docs, sku, thr, th), thr, th);
  }

  lemma MaterialDescriptions(items: seq<Item>, thr: real, th: Theory)
    ensures AnyMaterial(DescriptionCheck(items, thr, th)) <==> DescriptionsConflict(items, thr, th)
  {
    ConflictByValues(Descriptions(items, th), th);
    if DescriptionsConflict(items, thr, th) {
      assert DescriptionCheck(items, thr, th) == [Flag(ItemDescriptionMismatch, High, ItemDescription)];
      assert Material(DescriptionCheck(items, thr, th)[0]);
    }
  }

  lemma MaterialQuantities(docs: seq<Document>, items: seq<Item>, sku: string, thr: real, th: Theory)
    ensures AnyMaterial(QuantityCheck(docs, items, sku, thr, th)) <==> QuantitiesConflict(items, thr, th)
  {
    var check := QuantityCheck(docs, items, sku, thr, th);
    if forall i :: 0 <= i < |items| ==> Quantity(items[i], thr, th).Some? {
      var q := Quantities(items, thr, th);
      assert forall i :: 0 <= i < |items| ==> Quantity(items[i], thr, th) == Some(q[i]);
      if QuantitiesConflict(items, thr, th) {
        assert check == [QuantityConflict(q, TrustedPrice(docs, sku, thr, th))];
        assert Material(check[0]);
      }
    }
  }

  lemma RowIsFound(docs: seq<Document>, sku: string, rows: seq<nat>, thr: real, th: Theory)
    requires !Duplicated(docs, thr, th)
    requires C.Row(Filers(docs), rows) && AllKeyed(C.ItemsOf(Filers(docs), rows), sku, thr, th)
    ensures forall j :: 0 <= j < |docs| ==> OnFile(docs, sku, thr, th)[j] == Some(C.ItemsOf(Filers(docs), rows)[j])
  {
    forall j | 0 <= j < |docs| ensures OnFile(docs, sku, thr, th)[j] == Some(C.ItemsOf(Filers(docs), rows)[j]) {
      assert Key(C.ItemsOf(Filers(docs), rows)[j], thr, th) == Some(sku);
      FoundIsUnique(docs, sku, j, rows[j], thr, th);
    }
  }

  lemma FiledRow(docs: seq<Document>, sku: string, thr: real, th: Theory) returns (rows: seq<nat>)
    requires forall j :: 0 <= j < |docs| ==> Filed(docs[j], sku, thr, th)
    ensures C.Row(docs, rows) && AllKeyed(C.ItemsOf(docs, rows), sku, thr, th)
  {
    rows := [];
    for j := 0 to |docs|
      invariant |rows| == j
      invariant forall i :: 0 <= i < j ==>
                rows[i] < |docs[i].items| && Key(docs[i].items[rows[i]], thr, th) == Some(sku)
    {
      assert Filed(docs[j], sku, thr, th);
      var r: nat :| r < |docs[j].items| && Key(docs[j].items[r], thr, th) == Some(sku);
      rows := rows + [r];
    }
  }

  lemma MaterialRow(docs: seq<Document>, sku: string, rows: seq<nat>, thr: real, th: Theory)
    requires !Duplicated(docs, thr, th)
    requires C.Row(Filers(docs), rows) && AllKeyed(C.ItemsOf(Filers(docs), rows), sku, thr, th)
    ensures AnyMaterial(SkuCheck(docs, sku, thr, th)) <==>
            ItemsConflict(C.ItemsOf(Filers(docs), rows), thr, th)
  {
    var items, found := C.ItemsOf(Filers(docs), rows), OnFile(docs, sku, thr, th);
    RowIsFound(docs, sku, rows, thr, th);
    assert Values(found) == items;
    MaterialDescriptions(items, thr, th);
    MaterialQuantities(docs, items, sku, thr, th);
    AnyMaterialConcat(DescriptionCheck(items, thr, th), QuantityCheck(docs, items, sku, thr, th));
  }

  lemma MaterialSku(docs: seq<Document>, sku: string, thr: real, th: Theory)
    requires !Duplicated(docs, thr, th)
    ensures AnyMaterial(SkuCheck(docs, sku, thr, th)) <==>
            ProvenAbsent(docs, sku, thr, th) || RowConflict(docs, sku, thr, th)
  {
    if exists j :: 0 <= j < |docs| && !Filed(Filers(docs)[j], sku, thr, th) {
      MaterialAbsent(docs, sku, thr, th);
      var j :| 0 <= j < |docs| && !Filed(Filers(docs)[j], sku, thr, th);
      forall rows | C.Row(Filers(docs), rows) ensures !AllKeyed(C.ItemsOf(Filers(docs), rows), sku, thr, th) {
        assert Key(C.ItemsOf(Filers(docs), rows)[j], thr, th) != Some(sku);
      }
    } else {
      var row := FiledRow(Filers(docs), sku, thr, th);
      MaterialRow(docs, sku, row, thr, th);
      forall rows | C.Row(Filers(docs), rows) && AllKeyed(C.ItemsOf(Filers(docs), rows), sku, thr, th)
        ensures AnyMaterial(SkuCheck(docs, sku, thr, th)) <==>
                ItemsConflict(C.ItemsOf(Filers(docs), rows), thr, th)
      {
        MaterialRow(docs, sku, rows, thr, th);
      }
    }
  }

  // ---------------------------------------------------------------------------------------------
  // All SKUs
  // ---------------------------------------------------------------------------------------------

  predicate MaterialCheck(docs: seq<Document>, sku: string, thr: real, th: Theory) {
    AnyMaterial(SkuCheck(docs, sku, thr, th))
  }

  lemma LastSkuMaterial(docs: seq<Document>, skus: seq<string>, thr: real, th: Theory)
    requires skus != []
    ensures AnyMaterial(SkuChecks(docs, skus, thr, th)) <==>
            AnyMaterial(SkuChecks(docs, skus[..|skus| - 1], thr, th)) || MaterialCheck(docs, skus[|skus| - 1], thr, th)
  {
    AnyMaterialConcat(SkuChecks(docs, skus[..|skus| - 1], thr, th), SkuCheck(docs, skus[|skus| - 1], thr, th));
  }

  lemma {:induction false} SomeSkuMaterial(docs: seq<Document>, skus: seq<string>, thr: real, th: Theory)
      returns (i: nat)
    ensures AnyMaterial(SkuChecks(docs, skus, thr, th)) ==> i < |skus| && MaterialCheck(docs, skus[i], thr, th)
  {
    i := 0;
    if skus != [] {
      LastSkuMaterial(docs, skus, thr, th);
      i := SomeSkuMaterial(docs, skus[..|skus| - 1], thr, th);
      if !AnyMaterial(SkuChecks(docs, skus[..|skus| - 1], thr, th)) { i := |skus| - 1; }
    }
  }

  lemma {:induction false} SkuMaterialCounts(docs: seq<Document>, skus: seq<string>, thr: real, th: Theory, i: nat)
    requires i < |skus|
    ensures MaterialCheck(docs, skus[i], thr, th) ==> AnyMaterial(SkuChecks(docs, skus, thr, th))
  {
    LastSkuMaterial(docs, skus, thr, th);
    if i < |skus| - 1 { SkuMaterialCounts(docs, skus[..|skus| - 1], thr, th, i); }
  }

  lemma FiledSkus(docs: seq<Document>, sku: string, thr: real, th: Theory)
    ensures sku in AllSkus(docs, thr, th) <==> exists i :: 0 <= i < |docs| && Filed(Filers(docs)[i], sku, thr, th)
  {
    forall i | 0 <= i < |docs|
      ensures sku in MapFor(docs, docs[i].docType, thr, th) <==> Filed(Filers(docs)[i], sku, thr, th)
    {
      MapIsOfFiler(docs, i, thr, th);
      C.ItemMapHolds(Filers(docs)[i].items, thr, th, sku);
    }
  }

  lemma ListedSkuConflict(docs: seq<Document>, sku: string, thr: real, th: Theory)
    requires !Duplicated(docs, thr, th)
    ensures SkuConflict(docs, sku, thr, th) <==> sku in AllSkus(docs, thr, th) && MaterialCheck(docs, sku, thr, th)
  {
    FiledSkus(docs, sku, thr, th);
    MaterialSku(docs, sku, thr, th);
  }

  lemma SomeListedMaterial(docs: seq<Document>, skus: set<string>, thr: real, th: Theory)
    ensures AnyMaterial(SkuChecks(docs, StringOrder.SortedSet(skus), thr, th)) <==>
            exists sku :: sku in skus && MaterialCheck(docs, sku, thr, th)
  {
    var listed := StringOrder.SortedSet(skus);
    if AnyMaterial(SkuChecks(docs, listed, thr, th)) {
      var i := SomeSkuMaterial(docs, listed, thr, th);
      assert listed[i] in listed;
    }
    if exists sku :: sku in skus && MaterialCheck(docs, sku, thr, th) {
      var sku :| sku in skus && MaterialCheck(docs, sku, thr, th);
      var i: nat :| i < |listed| && listed[i] == sku;
      SkuMaterialCounts(docs, listed, thr, th, i);
    }
  }

  lemma MaterialSkus(docs: seq<Document>, thr: real, th: Theory)
    requires !Duplicated(docs, thr, th)
    ensures AnyMaterial(SkuChecks(docs, StringOrder.SortedSet(AllSkus(docs, thr, th)), thr, th)) <==>
            exists sku :: SkuConflict(docs, sku, thr, th)
  {
    SomeListedMaterial(docs, AllSkus(docs, thr, th), thr, th);
    forall sku { ListedSkuConflict(docs, sku, thr, th); }
  }

  lemma MaterialLines(docs: seq<Document>, thr: real, th: Theory)
    ensures AnyMaterial(LineMismatches(docs, thr, th)) <==>
            Duplicated(docs, thr, th) || exists sku :: SkuConflict(docs, sku, thr, th)
  {
    var skuChecks := SkuChecks(docs, StringOrder.SortedSet(AllSkus(docs, thr, th)), thr, th);
    LinesSplit(docs, thr, th);
    AnyMaterialConcat(ItemChecks(docs, thr, th), AfterItems(docs, thr, th));
    AnyMaterialConcat(skuChecks, EmptyCheck(docs));
    MaterialItems(docs, thr, th);
    if !Duplicated(docs, thr, th) { MaterialSkus(docs, thr, th); }
  }

  // ---------------------------------------------------------------------------------------------
  // Main result
  // ---------------------------------------------------------------------------------------------

  lemma HoldIsMaterial(mismatches: seq<Mismatch>)
    ensures StatusOf(mismatches) == Hold <==> AnyMaterial(mismatches)
  {
  }

  /**
   * Reconciliation is HOLD exactly when the evidence proves a conflict. Whether two items look alike
   * enough to suspect a wrong SKU makes no difference to that.
   */
  lemma HoldIff(documents: map<DocType, Document>, thr: real, th: Theory)
    ensures Reconcile(documents, thr, th).0 == Hold <==>
            var docs := InOrder(documents);
            || HeaderConflict(docs, thr, th) || !C.TotalsAgree(docs, thr, th) || Duplicated(docs, thr, th)
            || exists sku :: SkuConflict(docs, sku, thr, th)
  {
    var docs := InOrder(documents);
    HoldIsMaterial(Mismatches(documents, thr, th));
    MaterialHeader(documents, thr, th);
    MaterialTotals(docs, thr, th);
    MaterialLines(docs, thr, th);
    AnyMaterialConcat(HeaderMismatches(documents, thr, th), TotalCheck(docs, thr, th));
    AnyMaterialConcat(HeaderMismatches(documents, thr, th) + TotalCheck(docs, thr, th), LineMismatches(docs, thr, th));
  }
}
