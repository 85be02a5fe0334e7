/** Values below the confidence threshold have no influence on reconciliation. */
module NonInterference {
  import opened Wrappers
  import opened Reconciliation
  import StringOrder

  /** The field with its value hidden when the threshold does not vouch for it. */
  function MaskField(f: Field, thr: real): Field {
    if f.confidence < thr then f.(value := Absent) else f
  }

  function MaskItem(item: Item, thr: real): Item {
    Item(MaskField(item.sku, thr), MaskField(item.description, thr),
         MaskField(item.quantity, thr), MaskField(item.unitPrice, thr))
  }

  function MaskItems(items: seq<Item>, thr: real): seq<Item> {
    seq(|items|, i requires 0 <= i < |items| => MaskItem(items[i], thr))
  }

  /** The document with every untrusted value hidden; the shipment identifier is read at any confidence. */
  function Mask(d: Document, thr: real): Document {
    Document(
      d.docType,
      if d.typeConfidence < thr then None else d.detected,
      d.typeConfidence,
      d.complete,
      MaskField(d.documentId, thr),
      d.shipmentId,
      MaskField(d.sender, thr),
      MaskField(d.recipient, thr),
      MaskField(d.destination, thr),
      MaskField(d.total, thr),
      MaskItems(d.items, thr))
  }

  function MaskDocs(docs: seq<Document>, thr: real): seq<Document> {
    seq(|docs|, i requires 0 <= i < |docs| => Mask(docs[i], thr))
  }

  function MaskAll(documents: map<DocType, Document>, thr: real): map<DocType, Document> {
    map t | t in documents :: Mask(documents[t], thr)
  }

  lemma MaskInOrder(documents: map<DocType, Document>, thr: real)
    ensures InOrder(MaskAll(documents, thr)) == MaskDocs(InOrder(documents), thr)
  {
  }

  lemma MaskDocsInit(docs: seq<Document>, thr: real)
    requires docs != []
    ensures MaskDocs(docs, thr)[..|docs| - 1] == MaskDocs(docs[..|docs| - 1], thr)
    ensures MaskDocs(docs, thr)[|docs| - 1] == Mask(docs[|docs| - 1], thr)
  {
  }

  lemma {:induction false} MaskTypeChecks(docs: seq<Document>, thr: real)
    ensures TypeChecks(MaskDocs(docs, thr), thr) == TypeChecks(docs, thr)
  {
    if docs != [] {
      MaskDocsInit(docs, thr);
      MaskTypeChecks(docs[..|docs| - 1], thr);
    }
  }

  lemma MaskCompareText(docs: seq<Document>, f: TextField, thr: real, th: Theory)
    ensures CompareText(MaskDocs(docs, thr), f, thr, th) == CompareText(docs, f, thr, th)
  {
    var masked := MaskDocs(docs, thr);
    forall i | 0 <= i < |docs| ensures Weak(f.Of(masked[i]), thr) <==> Weak(f.Of(docs[i]), thr) {}
    if !(exists i :: 0 <= i < |docs| && Weak(f.Of(docs[i]), thr)) {
      forall i | 0 <= i < |docs| ensures f.Of(masked[i]) == f.Of(docs[i]) {
        assert !Weak(f.Of(docs[i]), thr);
      }
      assert NormalisedValues(masked, f, th) == NormalisedValues(docs, f, th);
    }
  }

  lemma {:induction false} MaskIdChecks(docs: seq<Document>, thr: real)
    ensures IdChecks(MaskDocs(docs, thr), thr) == IdChecks(docs, thr)
  {
    if docs != [] {
      MaskDocsInit(docs, thr);
      MaskIdChecks(docs[..|docs| - 1], thr);
    }
  }

  lemma {:induction false} MaskShipmentIds(docs: seq<Document>, thr: real, th: Theory)
    ensures ShipmentIds(MaskDocs(docs, thr), th) == ShipmentIds(docs, th)
  {
    if docs != [] {
      MaskDocsInit(docs, thr);
      MaskShipmentIds(docs[..|docs| - 1], thr, th);
    }
  }

  lemma {:induction false} MaskTotals(docs: seq<Document>, thr: real, th: Theory)
    ensures TrustedTotals(MaskDocs(docs, thr), thr, th) == TrustedTotals(docs, thr, th)
  {
    if docs != [] {
      MaskDocsInit(docs, thr);
      MaskTotals(docs[..|docs| - 1], thr, th);
    }
  }

  lemma MaskKey(item: Item, thr: real, th: Theory)
    ensures Key(MaskItem(item, thr), thr, th) == Key(item, thr, th)
  {
  }

  lemma MaskItemsInit(items: seq<Item>, thr: real)
    requires items != []
    ensures MaskItems(items, thr)[..|items| - 1] == MaskItems(items[..|items| - 1], thr)
    ensures MaskItems(items, thr)[|items| - 1] == MaskItem(items[|items| - 1], thr)
  {
  }

  lemma {:induction false} MaskKeys(items: seq<Item>, thr: real, th: Theory)
    ensures Keys(MaskItems(items, thr), thr, th) == Keys(items, thr, th)
  {
    if items != [] {
      MaskItemsInit(items, thr);
      MaskKeys(items[..|items| - 1], thr, th);
      MaskKey(items[|items| - 1], thr, th);
    }
  }

  lemma {:induction false} MaskWeakRows(items: seq<Item>, thr: real)
    ensures WeakRows(MaskItems(items, thr), thr) == WeakRows(items, thr)
  {
    if items != [] {
      MaskItemsInit(items, thr);
      MaskWeakRows(items[..|items| - 1], thr);
    }
  }

  lemma {:induction false} MaskItemChecks(docs: seq<Document>, thr: real, th: Theory)
    ensures ItemChecks(MaskDocs(docs, thr), thr, th) == ItemChecks(docs, thr, th)
  {
    if docs != [] {
      var d := docs[|docs| - 1];
      MaskDocsInit(docs, thr);
      MaskItemChecks(docs[..|docs| - 1], thr, th);
      MaskKeys(d.items, thr, th);
      MaskWeakRows(d.items, thr);
    }
  }

  /** The item map of the masked items holds the masked items. */
  lemma {:induction false} MaskItemMap(items: seq<Item>, thr: real, th: Theory)
    ensures var m, n := ItemMap(items, thr, th), ItemMap(MaskItems(items, thr), thr, th);
            n.Keys == m.Keys && forall k :: k in m ==> n[k] == MaskItem(m[k], thr)
  {
    if items != [] {
      MaskItemsInit(items, thr);
      MaskItemMap(items[..|items| - 1], thr, th);
      MaskKey(items[|items| - 1], thr, th);
    }
  }

  function MaskFound(o: Option<Item>, thr: real): Option<Item> {
    if o.Some? then Some(MaskItem(o.value, thr)) else None
  }

  lemma MaskLookupIn(items: seq<Item>, k: string, thr: real, th: Theory)
    ensures Lookup(ItemMap(MaskItems(items, thr), thr, th), k) == MaskFound(Lookup(ItemMap(items, thr, th), k), thr)
  {
    MaskItemMap(items, thr, th);
  }

  lemma {:induction false} MaskLookup(docs: seq<Document>, t: DocType, k: string, thr: real, th: Theory)
    ensures Lookup(MapFor(MaskDocs(docs, thr), t, thr, th), k) == MaskFound(Lookup(MapFor(docs, t, thr, th), k), thr)
  {
    if docs != [] {
      MaskDocsInit(docs, thr);
      if docs[|docs| - 1].docType == t {
        MaskLookupIn(docs[|docs| - 1].items, k, thr, th);
      } else {
        MaskLookup(docs[..|docs| - 1], t, k, thr, th);
      }
    }
  }

  lemma MaskAllSkus(docs: seq<Document>, thr: real, th: Theory)
    ensures AllSkus(MaskDocs(docs, thr), thr, th) == AllSkus(docs, thr, th)
  {
    var masked := MaskDocs(docs, thr);
    forall k ensures k in AllSkus(masked, thr, th) <==> k in AllSkus(docs, thr, th) {
      forall i | 0 <= i < |docs|
        ensures k in MapFor(masked, masked[i].docType, thr, th) <==> k in MapFor(docs, docs[i].docType, thr, th)
      {
        MaskLookup(docs, docs[i].docType, k, thr, th);
      }
      if k in AllSkus(docs, thr, th) {
        var i :| 0 <= i < |docs| && k in MapFor(docs, docs[i].docType, thr, th);
        assert k in MapFor(masked, masked[i].docType, thr, th);
      }
    }
  }

  lemma MaskUncertainTypes(docs: seq<Document>, thr: real)
    ensures UncertainTypes(MaskDocs(docs, thr), thr) == UncertainTypes(docs, thr)
  {
    var masked := MaskDocs(docs, thr);
    forall i | 0 <= i < |docs|
      ensures UncertainItems(masked[i], thr) <==> UncertainItems(docs[i], thr)
      ensures masked[i].docType == docs[i].docType
    {
      forall k | 0 <= k < |docs[i].items|
        ensures WeakItem(masked[i].items[k], thr) <==> WeakItem(docs[i].items[k], thr)
      {}
    }
  }

  lemma MaskDescribed(item: Item, thr: real, th: Theory)
    ensures Described(MaskItem(item, thr), thr, th) <==> Described(item, thr, th)
    ensures Confident(item.description, thr) ==> Description(MaskItem(item, thr), th) == Description(item, th)
  {
  }

  lemma MaskLikelySame(a: Item, b: Item, thr: real, th: Theory)
    ensures LikelySame(MaskItem(a, thr), MaskItem(b, thr), thr, th) <==> LikelySame(a, b, thr, th)
  {
    MaskDescribed(a, thr, th);
    MaskDescribed(b, thr, th);
  }

  lemma MaskLikelyWrongSku(docs: seq<Document>, found: seq<Option<Item>>, masked: seq<Option<Item>>, thr: real,
      th: Theory)
    requires |found| == |docs| == |masked| && forall i :: 0 <= i < |docs| ==> masked[i] == MaskFound(found[i], thr)
    ensures LikelyWrongSku(MaskDocs(docs, thr), masked, thr, th) <==> LikelyWrongSku(docs, found, thr, th)
  {
    var hidden := MaskDocs(docs, thr);
    forall i, j, k | 0 <= i < |docs| && 0 <= j < |docs| && found[j].Some? && 0 <= k < |docs[i].items|
      ensures LikelySame(hidden[i].items[k], masked[j].value, thr, th) <==>
              LikelySame(docs[i].items[k], found[j].value, thr, th)
    {
      MaskLikelySame(docs[i].items[k], found[j].value, thr, th);
    }
  }

  lemma MaskAbsentSku(docs: seq<Document>, found: seq<Option<Item>>, masked: seq<Option<Item>>, thr: real, th: Theory)
    requires |found| == |docs| == |masked| && forall i :: 0 <= i < |docs| ==> masked[i] == MaskFound(found[i], thr)
    ensures AbsentSku(MaskDocs(docs, thr), masked, thr, th) == AbsentSku(docs, found, thr, th)
  {
    MaskUncertainTypes(docs, thr);
    MaskLikelyWrongSku(docs, found, masked, thr, th);
    forall i | 0 <= i < |docs|
      ensures MaskDocs(docs, thr)[i].docType == docs[i].docType && (masked[i].None? <==> found[i].None?)
    {}
  }

  lemma MaskDescriptionCheck(items: seq<Item>, thr: real, th: Theory)
    ensures DescriptionCheck(MaskItems(items, thr), thr, th) == DescriptionCheck(items, thr, th)
  {
    var masked := MaskItems(items, thr);
    forall i | 0 <= i < |items|
      ensures Described(masked[i], thr, th) <==> Described(items[i], thr, th)
      ensures Described(items[i], thr, th) ==> Description(masked[i], th) == Description(items[i], th)
    {
      MaskDescribed(items[i], thr, th);
    }
    if !(exists i :: 0 <= i < |items| && !Described(items[i], thr, th)) {
      assert Descriptions(masked, th) == Descriptions(items, th);
    }
  }

  lemma MaskPriceIn(d: Document, sku: string, thr: real, th: Theory)
    ensures PriceIn(Mask(d, thr), sku, thr, th) == PriceIn(d, sku, thr, th)
  {
    MaskLookupIn(d.items, sku, thr, th);
  }

  lemma {:induction false} MaskFirstPrice(docs: seq<Document>, sku: string, thr: real, th: Theory)
    ensures FirstPrice(MaskDocs(docs, thr), sku, thr, th) == FirstPrice(docs, sku, thr, th)
  {
    if docs != [] {
      MaskPriceIn(docs[0], sku, thr, th);
      assert MaskDocs(docs, thr)[1..] == MaskDocs(docs[1..], thr);
      MaskFirstPrice(docs[1..], sku, thr, th);
    }
  }

  lemma {:induction false} MaskFirstInvoice(docs: seq<Document>, thr: real)
    ensures FirstInvoice(MaskDocs(docs, thr)) == FirstInvoice(docs)
  {
    if docs != [] {
      assert MaskDocs(docs, thr)[1..] == MaskDocs(docs[1..], thr);
      MaskFirstInvoice(docs[1..], thr);
    }
  }

  lemma MaskConcat(a: seq<Document>, b: seq<Document>, thr: real)
    ensures MaskDocs(a + b, thr) == MaskDocs(a, thr) + MaskDocs(b, thr)
  {
  }

  lemma MaskAround(docs: seq<Document>, n: nat, thr: real)
    requires n < |docs|
    ensures MaskDocs(docs, thr)[..n] == MaskDocs(docs[..n], thr)
    ensures MaskDocs([docs[n]], thr) == [MaskDocs(docs, thr)[n]]
    ensures MaskDocs(docs, thr)[n + 1..] == MaskDocs(docs[n + 1..], thr)
  {
  }

  lemma MaskPriceOrder(docs: seq<Document>, thr: real)
    ensures PriceOrder(MaskDocs(docs, thr)) == MaskDocs(PriceOrder(docs), thr)
  {
    var n := FirstInvoice(docs);
    MaskFirstInvoice(docs, thr);
    if n < |docs| {
      MaskAround(docs, n, thr);
      MaskConcat([docs[n]], docs[..n], thr);
      MaskConcat([docs[n]] + docs[..n], docs[n + 1..], thr);
    }
  }

  lemma MaskTrustedPrice(docs: seq<Document>, sku: string, thr: real, th: Theory)
    ensures TrustedPrice(MaskDocs(docs, thr), sku, thr, th) == TrustedPrice(docs, sku, thr, th)
  {
    MaskPriceOrder(docs, thr);
    MaskFirstPrice(PriceOrder(docs), sku, thr, th);
  }

  lemma MaskQuantityCheck(docs: seq<Document>, items: seq<Item>, sku: string, thr: real, th: Theory)
    ensures QuantityCheck(MaskDocs(docs, thr), MaskItems(items, thr), sku, thr, th) ==
            QuantityCheck(docs, items, sku, thr, th)
  {
    var masked := MaskItems(items, thr);
    forall i | 0 <= i < |items| ensures Quantity(masked[i], thr, th) == Quantity(items[i], thr, th) {}
    if !(exists i :: 0 <= i < |items| && Quantity(items[i], thr, th).None?) {
      assert Quantities(masked, thr, th) == Quantities(items, thr, th);
      MaskTrustedPrice(docs, sku, thr, th);
    }
  }

  predicate AllFound(found: seq<Option<Item>>) {
    forall i :: 0 <= i < |found| ==> found[i].Some?
  }

  lemma SkuCheckByFound(docs: seq<Document>, sku: string, thr: real, th: Theory)
    ensures var found := OnFile(docs, sku, thr, th);
            SkuCheck(docs, sku, thr, th) ==
            if AllFound(found) then
              DescriptionCheck(Values(found), thr, th) + QuantityCheck(docs, Values(found), sku, thr, th)
            else AbsentSku(docs, found, thr, th)
  {
  }

  lemma MaskOnFile(docs: seq<Document>, sku: string, thr: real, th: Theory)
    ensures var found, masked := OnFile(docs, sku, thr, th), OnFile(MaskDocs(docs, thr), sku, thr, th);
            forall i :: 0 <= i < |docs| ==> masked[i] == MaskFound(found[i], thr)
  {
    forall i | 0 <= i < |docs|
      ensures OnFile(MaskDocs(docs, thr), sku, thr, th)[i] == MaskFound(OnFile(docs, sku, thr, th)[i], thr)
    {
      MaskLookup(docs, docs[i].docType, sku, thr, th);
    }
  }

  lemma MaskSkuCheck(docs: seq<Document>, sku: string, thr: real, th: Theory)
    ensures SkuCheck(MaskDocs(docs, thr), sku, thr, th) == SkuCheck(docs, sku, thr, th)
  {
    var found, masked := OnFile(docs, sku, thr, th), OnFile(MaskDocs(docs, thr), sku, thr, th);
    MaskOnFile(docs, sku, thr, th);
    SkuCheckByFound(docs, sku, thr, th);
    SkuCheckByFound(MaskDocs(docs, thr), sku, thr, th);
    assert AllFound(masked) <==> AllFound(found);
    if AllFound(found) {
      assert Values(masked) == MaskItems(Values(found), thr);
      MaskDescriptionCheck(Values(found), thr, th);
      MaskQuantityCheck(docs, Values(found), sku, thr, th);
    } else {
      MaskAbsentSku(docs, found, masked, thr, th);
    }
  }

  lemma {:induction false} MaskSkuChecks(docs: seq<Document>, skus: seq<string>, thr: real, th: Theory)
    ensures SkuChecks(MaskDocs(docs, thr), skus, thr, th) == SkuChecks(docs, skus, thr, th)
  {
    if skus != [] {
      MaskSkuChecks(docs, skus[..|skus| - 1], thr, th);
      MaskSkuCheck(docs, skus[|skus| - 1], thr, th);
    }
  }

  lemma MaskHeader(documents: map<DocType, Document>, thr: real, th: Theory)
    ensures HeaderMismatches(MaskAll(documents, thr), thr, th) == HeaderMismatches(documents, thr, th)
  {
    var docs := InOrder(documents);
    MaskInOrder(documents, thr);
    MaskTypeChecks(docs, thr);
    MaskCompareText(docs, RecipientField, thr, th);
    MaskCompareText(docs, DestinationField, thr, th);
    MaskCompareText(docs, SenderField, thr, th);
    MaskIdChecks(docs, thr);
    MaskShipmentIds(docs, thr, th);
  }

  lemma MaskTotalCheck(docs: seq<Document>, thr: real, th: Theory)
    ensures TotalCheck(MaskDocs(docs, thr), thr, th) == TotalCheck(docs, thr, th)
  {
    MaskTotals(docs, thr, th);
  }

  lemma MaskEmptyCheck(docs: seq<Document>, thr: real)
    ensures EmptyCheck(MaskDocs(docs, thr)) == EmptyCheck(docs)
  {
    forall i | 0 <= i < |docs| ensures MaskDocs(docs, thr)[i].items == [] <==> docs[i].items == [] {}
  }

  lemma MaskLines(docs: seq<Document>, thr: real, th: Theory)
    ensures LineMismatches(MaskDocs(docs, thr), thr, th) == LineMismatches(docs, thr, th)
  {
    MaskItemChecks(docs, thr, th);
    MaskAllSkus(docs, thr, th);
    MaskSkuChecks(docs, StringOrder.SortedSet(AllSkus(docs, thr, th)), thr, th);
    MaskEmptyCheck(docs, thr);
  }

  /** Hiding every value below the threshold changes neither the status nor any mismatch. */
  lemma MaskingIsUnobservable(documents: map<DocType, Document>, thr: real, th: Theory)
    ensures Reconcile(MaskAll(documents, thr), thr, th) == Reconcile(documents, thr, th)
  {
    MaskHeader(documents, thr, th);
    MaskInOrder(documents, thr);
    MaskTotalCheck(InOrder(documents), thr, th);
    MaskLines(InOrder(documents), thr, th);
  }

  // ---------------------------------------------------------------------------------------------
  // Documents that differ only below the threshold
  // ---------------------------------------------------------------------------------------------

  predicate FieldAgrees(f: Field, g: Field, thr: real) {
    f.confidence == g.confidence && (f.confidence >= thr ==> f.value == g.value)
  }

  predicate ItemAgrees(a: Item, b: Item, thr: real) {
    && FieldAgrees(a.sku, b.sku, thr) && FieldAgrees(a.description, b.description, thr)
    && FieldAgrees(a.quantity, b.quantity, thr) && FieldAgrees(a.unitPrice, b.unitPrice, thr)
  }

  predicate DocumentAgrees(d: Document, e: Document, thr: real) {
    && d.docType == e.docType && d.complete == e.complete
    && d.typeConfidence == e.typeConfidence && (d.typeConfidence >= thr ==> d.detected == e.detected)
    && d.shipmentId == e.shipmentId
    && FieldAgrees(d.documentId, e.documentId, thr) && FieldAgrees(d.sender, e.sender, thr)
    && FieldAgrees(d.recipient, e.recipient, thr) && FieldAgrees(d.destination, e.destination, thr)
    && FieldAgrees(d.total, e.total, thr)
    && |d.items| == |e.items| && forall i :: 0 <= i < |d.items| ==> ItemAgrees(d.items[i], e.items[i], thr)
  }

  /**
   * Two sets of documents that agree on all confidences, on the shipment identifiers and on every
   * value at or above the threshold get the same status and the same mismatches.
   */
  lemma BelowThresholdDoesNotMatter(documents: map<DocType, Document>, others: map<DocType, Document>, thr: real,
      th: Theory)
    requires documents.Keys == others.Keys
    requires forall t :: t in documents ==> DocumentAgrees(documents[t], others[t], thr)
    ensures Reconcile(documents, thr, th) == Reconcile(others, thr, th)
  {
    forall t | t in documents ensures Mask(documents[t], thr) == Mask(others[t], thr) {
      var d, e := documents[t], others[t];
      forall i | 0 <= i < |d.items| ensures MaskItem(d.items[i], thr) == MaskItem(e.items[i], thr) {
        assert ItemAgrees(d.items[i], e.items[i], thr);
      }
      assert MaskItems(d.items, thr) == MaskItems(e.items, thr);
    }
    assert MaskAll(documents, thr) == MaskAll(others, thr);
    MaskingIsUnobservable(documents, thr, th);
    MaskingIsUnobservable(others, thr, th);
  }
}
