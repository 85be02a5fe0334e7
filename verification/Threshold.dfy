/** How the decision depends on the confidence threshold. */
module Threshold {
  import opened Wrappers
  import opened Reconciliation
  import opened NumberFormat
  import opened ClearDecision
  import opened Filing
  import Digits

  lemma TextClearAtLower(docs: seq<Document>, f: TextField, thr: real, lower: real, th: Theory)
    requires TextClear(docs, f, thr, th) && lower <= thr
    ensures TextClear(docs, f, lower, th)
  {
    forall i | 0 <= i < |docs| ensures !Weak(f.Of(docs[i]), lower) { assert !Weak(f.Of(docs[i]), thr); }
  }

  /** Lowering the threshold keeps everything CLEAR asks for, except agreement of the totals. */
  lemma ClearAtLower(documents: map<DocType, Document>, thr: real, lower: real, th: Theory)
    requires ClearExceptTotals(documents, thr, th) && lower <= thr
    ensures ClearExceptTotals(documents, lower, th)
  {
    var docs := InOrder(documents);
    forall i | 0 <= i < |docs| ensures VerifiedType(docs[i], lower) { assert VerifiedType(docs[i], thr); }
    forall i | 0 <= i < |docs| ensures !Weak(docs[i].documentId, lower) { assert !Weak(docs[i].documentId, thr); }
    TextClearAtLower(docs, RecipientField, thr, lower, th);
    TextClearAtLower(docs, DestinationField, thr, lower, th);
    TextClearAtLower(docs, SenderField, thr, lower, th);
    forall i | 0 <= i < |docs| ensures ItemsClear(docs[i], lower, th) {
      assert ItemsClear(docs[i], thr, th);
      forall k | 0 <= k < |docs[i].items|
        ensures !WeakItem(docs[i].items[k], lower)
      {
        assert !WeakItem(docs[i].items[k], thr);
      }
    }
  }

  lemma TotalCheckStatus(docs: seq<Document>, thr: real, th: Theory)
    ensures StatusOf(TotalCheck(docs, thr, th)) == if TotalCheck(docs, thr, th) == [] then Clear else Hold
    ensures forall m :: m in TotalCheck(docs, thr, th) ==> m.kind == TotalMismatch
  {
    var totals := TotalCheck(docs, thr, th);
    if totals != [] { assert Material(totals[0]); }
  }

  lemma OnlyTotals(documents: map<DocType, Document>, thr: real, th: Theory)
    requires HeaderMismatches(documents, thr, th) == [] && LineMismatches(InOrder(documents), thr, th) == []
    ensures Mismatches(documents, thr, th) == TotalCheck(InOrder(documents), thr, th)
  {
  }

  /**
   * What is CLEAR at a threshold has at a lower one no mismatch but a conflict of totals, which
   * appears exactly when the totals newly trusted disagree.
   */
  lemma ClearAtLowerButTotals(documents: map<DocType, Document>, thr: real, lower: real, th: Theory)
    requires lower <= thr
    requires Reconcile(documents, thr, th).0 == Clear
    ensures forall m :: m in Reconcile(documents, lower, th).1 ==> m.kind == TotalMismatch
    ensures Reconcile(documents, lower, th).0 == if TotalsAgree(InOrder(documents), lower, th) then Clear else Hold
  {
    ClearIff(documents, thr, th);
    ClearAtLower(documents, thr, lower, th);
    HeaderAndLinesEmpty(documents, lower, th);
    OnlyTotals(documents, lower, th);
    TotalCheckStatus(InOrder(documents), lower, th);
    TotalCheckEmpty(InOrder(documents), lower, th);
  }

  function SampleItem(): Item {
    var sure := Field(Text("A"), 1.0);
    Item(sure, sure, Field(Number("n", Some(Dec(1, 0))), 1.0), sure)
  }

  /** A document of one item, certain of everything but its total. */
  function Sample(t: DocType, amount: nat): Document {
    var sure := Field(Text("A"), 1.0);
    Document(t, Some(t), 1.0, true, sure, sure, sure, sure, sure, Field(Number("n", Some(Dec(amount, 0))), 0.5),
        [SampleItem()])
  }

  lemma SampleHeader(docs: seq<Document>, th: Theory)
    requires forall i :: 0 <= i < |docs| ==> exists t, n :: docs[i] == Sample(t, n)
    ensures HeaderClear(docs, 0.75, th) && TotalsAgree(docs, 0.75, th)
  {
  }

  lemma SampleNumber(amount: nat, th: Theory)
    requires amount <= 2
    ensures Parse(Number("n", Some(Dec(amount, 0))), th) == Some(amount as real)
  {
    var d := Dec(amount, 0);
    assert Digits.Power10(0) == 1 && Digits.Power10(24) >= 1;
    assert Plausible(d) && Real(d) == amount as real;
  }

  lemma SampleRow(items: seq<Item>, th: Theory)
    requires forall i :: 0 <= i < |items| ==> items[i] == SampleItem()
    ensures Consistent(items, th)
  {
    SampleNumber(1, th);
    var quantities := seq(|items|, i requires 0 <= i < |items| => Parse(items[i].quantity.value, th));
    assert forall i :: 0 <= i < |items| ==> quantities[i] == Some(1.0);
  }

  predicate AllSamples(docs: seq<Document>) {
    forall i :: 0 <= i < |docs| ==> docs[i].items == [SampleItem()] && docs[i].complete
  }

  lemma SampleItems(docs: seq<Document>, th: Theory)
    requires AllSamples(docs)
    ensures forall i :: 0 <= i < |docs| ==> ItemsClear(docs[i], 0.75, th)
  {
    assert !WeakItem(SampleItem(), 0.75);
  }

  lemma SampleRows(filed: seq<Document>, th: Theory)
    requires AllSamples(filed)
    ensures SameSkus(filed, th) && RowsConsistent(filed, th)
  {
    forall i | 0 <= i < |filed|
      ensures Lists(filed[i], Sku(SampleItem(), th), th)
    {
      assert filed[i].items[0] == SampleItem();
    }
    forall rows | Row(filed, rows) ensures Consistent(ItemsOf(filed, rows), th) {
      SampleRow(ItemsOf(filed, rows), th);
    }
  }

  lemma SampleLines(docs: seq<Document>, th: Theory)
    requires forall i :: 0 <= i < |docs| ==> exists t, n :: docs[i] == Sample(t, n)
    ensures LinesClear(docs, 0.75, th)
  {
    SampleItems(docs, th);
    forall i | 0 <= i < |docs| ensures Filers(docs)[i].items == [SampleItem()] && Filers(docs)[i].complete {
      assert Filers(docs)[i] in docs;
    }
    SampleRows(Filers(docs), th);
  }

  function Samples(): map<DocType, Document> {
    map[Invoice := Sample(Invoice, 1), PackingList := Sample(PackingList, 2), DeliveryOrder := Sample(DeliveryOrder, 2)]
  }

  lemma SampleTotals(docs: seq<Document>, th: Theory)
    requires |docs| == 3 && docs[0] == Sample(Invoice, 1) && docs[1] == Sample(PackingList, 2)
    ensures !TotalsAgree(docs, 0.5, th)
  {
    SampleNumber(1, th);
    SampleNumber(2, th);
    assert TrustedTotal(docs[0], 0.5, th) == Some(1.0) && TrustedTotal(docs[1], 0.5, th) == Some(2.0);
  }

  lemma SamplesInOrder()
    ensures WellKeyed(Samples()) && AllPresent(Samples())
    ensures InOrder(Samples()) == [Sample(Invoice, 1), Sample(PackingList, 2), Sample(DeliveryOrder, 2)]
  {
  }

  /** The exception is real: samples whose totals differ are CLEAR while these are not trusted, and HOLD below. */
  lemma TotalsConflictBelow(th: Theory)
    ensures Reconcile(Samples(), 0.75, th).0 == Clear && Reconcile(Samples(), 0.5, th).0 == Hold
  {
    var documents := Samples();
    SamplesInOrder();
    SampleHeader(InOrder(documents), th);
    SampleLines(InOrder(documents), th);
    ClearIff(documents, 0.75, th);
    ClearAtLowerButTotals(documents, 0.75, 0.5, th);
    SampleTotals(InOrder(documents), th);
  }
}
