/** What the estimates in totals and quantity findings mean, and where their price comes from. */
module Estimates {
  import opened Wrappers
  import opened Reconciliation
  import opened Findings
  import opened ItemFindings
  import H = HoldDecision

  /** The largest difference between two of the numbers. */
  predicate IsSpread(s: seq<real>, spread: real) {
    && (forall i, j :: 0 <= i < |s| && 0 <= j < |s| ==> s[i] - s[j] <= spread)
    && (exists i, j :: 0 <= i < |s| && 0 <= j < |s| && s[i] - s[j] == spread)
  }

  lemma {:induction false} Extremes(s: seq<real>)
    requires s != []
    ensures MaxOf(s) in s && MinOf(s) in s
    ensures forall i :: 0 <= i < |s| ==> MinOf(s) <= s[i] <= MaxOf(s)
  {
    if |s| > 1 { Extremes(s[..|s| - 1]); }
  }

  lemma SpreadOfExtremes(s: seq<real>)
    requires s != []
    ensures IsSpread(s, MaxOf(s) - MinOf(s))
    ensures MaxOf(s) - MinOf(s) > 0.0 <==> !AllSame(s)
  {
    Extremes(s);
    var i :| 0 <= i < |s| && s[i] == MaxOf(s);
    var j :| 0 <= j < |s| && s[j] == MinOf(s);
    assert s[i] - s[j] == MaxOf(s) - MinOf(s);
    if MaxOf(s) - MinOf(s) > 0.0 { assert if i < j then s[i] != s[j] else s[j] != s[i]; }
  }

  /** A conflict of totals is estimated by their spread. */
  lemma TotalEstimate(docs: seq<Document>, thr: real, th: Theory)
    requires TotalCheck(docs, thr, th) != []
    ensures TotalCheck(docs, thr, th)[0].estimate.Some?
    ensures TotalCheck(docs, thr, th)[0].estimate.value > 0.0
    ensures IsSpread(Amounts(TrustedTotals(docs, thr, th)), TotalCheck(docs, thr, th)[0].estimate.value)
  {
    SpreadOfExtremes(Amounts(TrustedTotals(docs, thr, th)));
  }

  lemma {:induction false} TotalOf(docs: seq<Document>, thr: real, k: nat, th: Theory) returns (i: nat)
    requires k < |TrustedTotals(docs, thr, th)|
    ensures i < |docs| && TrustedTotal(docs[i], thr, th) == Some(TrustedTotals(docs, thr, th)[k].1)
    ensures docs[i].docType == TrustedTotals(docs, thr, th)[k].0
  {
    i := |docs| - 1;
    if k < |TrustedTotals(docs[..i], thr, th)| { i := TotalOf(docs[..i], thr, k, th); }
  }

  lemma {:induction false} TotalListed(docs: seq<Document>, thr: real, i: nat, th: Theory) returns (k: nat)
    requires i < |docs| && TrustedTotal(docs[i], thr, th).Some?
    ensures k < |TrustedTotals(docs, thr, th)| && TrustedTotals(docs, thr, th)[k].0 == docs[i].docType
  {
    if i < |docs| - 1 {
      k := TotalListed(docs[..|docs| - 1], thr, i, th);
    } else {
      k := |TrustedTotals(docs[..i], thr, th)|;
    }
  }

  predicate HasTotal(docs: seq<Document>, thr: real, t: DocType, th: Theory) {
    exists i :: 0 <= i < |docs| && docs[i].docType == t && TrustedTotal(docs[i], thr, th).Some?
  }

  /** The first document with a trusted total. */
  predicate FirstTotal(docs: seq<Document>, i: nat, thr: real, th: Theory)
    requires i < |docs|
  {
    TrustedTotal(docs[i], thr, th).Some? && forall j :: 0 <= j < i ==> TrustedTotal(docs[j], thr, th).None?
  }

  lemma {:induction false} FirstListed(docs: seq<Document>, thr: real, th: Theory) returns (i: nat)
    requires TrustedTotals(docs, thr, th) != []
    ensures i < |docs| && FirstTotal(docs, i, thr, th) && TrustedTotals(docs, thr, th)[0].0 == docs[i].docType
  {
    var last := |docs| - 1;
    if TrustedTotals(docs[..last], thr, th) != [] {
      i := FirstListed(docs[..last], thr, th);
      assert forall j :: 0 <= j <= i ==> docs[..last][j] == docs[j];
    } else {
      i := last;
      forall j | 0 <= j < last ensures TrustedTotal(docs[j], thr, th).None? {
        if TrustedTotal(docs[..last][j], thr, th).Some? { var k := TotalListed(docs[..last], thr, j, th); }
      }
    }
  }

  /** Its source is the invoice when the invoice has a trusted total, and otherwise the first document with one. */
  lemma TotalSource(docs: seq<Document>, thr: real, th: Theory)
    requires TotalCheck(docs, thr, th) != []
    ensures TotalCheck(docs, thr, th)[0].source.Some?
    ensures TotalCheck(docs, thr, th)[0].source == Some(Invoice) <==> HasTotal(docs, thr, Invoice, th)
    ensures !HasTotal(docs, thr, Invoice, th) ==>
              exists i :: 0 <= i < |docs| && FirstTotal(docs, i, thr, th)
                          && TotalCheck(docs, thr, th)[0].source == Some(docs[i].docType)
  {
    var totals := TrustedTotals(docs, thr, th);
    forall k | 0 <= k < |totals| ensures HasTotal(docs, thr, totals[k].0, th) { var i := TotalOf(docs, thr, k, th); }
    if HasTotal(docs, thr, Invoice, th) {
      var i: nat :| i < |docs| && docs[i].docType == Invoice && TrustedTotal(docs[i], thr, th).Some?;
      var k := TotalListed(docs, thr, i, th);
    } else {
      var i := FirstListed(docs, thr, th);
    }
  }

  /** A document's price of a SKU is that of the item filed under it, if it is confident and a number. */
  lemma PriceOfFiled(d: Document, sku: string, thr: real, th: Theory)
    ensures !Has(d, sku, thr, th) ==> PriceIn(d, sku, thr, th) == None
    ensures forall k: nat :: IsFiled(d.items, k, sku, thr, th) ==>
              var price := d.items[k].unitPrice;
              PriceIn(d, sku, thr, th) ==
                if price.confidence >= thr && NumberIn(price.value, th).Some?
                then Some(Real(NumberIn(price.value, th).value))
                else None
  {
    if !Has(d, sku, thr, th) { NothingFiled(d.items, sku, thr, th); }
    forall k: nat | IsFiled(d.items, k, sku, thr, th)
      ensures Lookup(ItemMap(d.items, thr, th), sku) == Some(d.items[k])
      ensures Parse(d.items[k].unitPrice.value, th) ==
              if NumberIn(d.items[k].unitPrice.value, th).Some?
              then Some(Real(NumberIn(d.items[k].unitPrice.value, th).value))
              else None
    {
      MapHoldsLast(d.items, k, sku, thr, th);
      ParseIsNumberIn(d.items[k].unitPrice.value, th);
    }
  }

  lemma {:induction false} FirstPriceFound(docs: seq<Document>, sku: string, thr: real, th: Theory)
    ensures FirstPrice(docs, sku, thr, th).None? <==>
            forall i :: 0 <= i < |docs| ==> PriceIn(docs[i], sku, thr, th).None?
    ensures FirstPrice(docs, sku, thr, th).Some? ==>
              exists i :: 0 <= i < |docs| && FirstPrice(docs, sku, thr, th).value.1 == docs[i].docType
                          && PriceIn(docs[i], sku, thr, th) == Some(FirstPrice(docs, sku, thr, th).value.0)
                          && forall j :: 0 <= j < i ==> PriceIn(docs[j], sku, thr, th).None?
  {
    if docs != [] && PriceIn(docs[0], sku, thr, th).None? {
      FirstPriceFound(docs[1..], sku, thr, th);
      assert forall i :: 0 < i < |docs| ==> docs[i] == docs[1..][i - 1];
      assert forall i :: 0 <= i < |docs| - 1 ==> docs[1..][i] == docs[i + 1];
    }
  }

  lemma {:induction false} FirstInvoiceIs(docs: seq<Document>)
    ensures FirstInvoice(docs) < |docs| ==> docs[FirstInvoice(docs)].docType == Invoice
    ensures forall i :: 0 <= i < FirstInvoice(docs) ==> docs[i].docType != Invoice
  {
    if docs != [] && docs[0].docType != Invoice {
      FirstInvoiceIs(docs[1..]);
      assert forall i :: 0 < i < |docs| ==> docs[i] == docs[1..][i - 1];
    }
  }

  predicate IsFirstInvoice(docs: seq<Document>, i: nat)
    requires i < |docs|
  {
    docs[i].docType == Invoice && forall j :: 0 <= j < i ==> docs[j].docType != Invoice
  }

  /** No document before it has a price, the first invoice counting as before all others. */
  predicate DecidesPrice(docs: seq<Document>, i: nat, sku: string, thr: real, th: Theory)
    requires i < |docs|
  {
    && PriceIn(docs[i], sku, thr, th).Some?
    && (IsFirstInvoice(docs, i)
        || ((forall n :: 0 <= n < |docs| && IsFirstInvoice(docs, n) ==> PriceIn(docs[n], sku, thr, th).None?)
            && forall j :: 0 <= j < i ==> PriceIn(docs[j], sku, thr, th).None?))
  }

  /** Where a document stands in the order of prices. */
  function Standing(docs: seq<Document>, i: nat): (k: nat)
    requires i < |docs|
    ensures k < |PriceOrder(docs)| && PriceOrder(docs)[k] == docs[i]
  {
    var n := FirstInvoice(docs);
    if i < n && n < |docs| then i + 1 else if i == n then 0 else i
  }

  lemma StandsFor(docs: seq<Document>, k: nat) returns (i: nat)
    requires k < |PriceOrder(docs)|
    ensures i < |docs| && Standing(docs, i) == k
  {
    var n := FirstInvoice(docs);
    i := if n == |docs| || k > n then k else if k == 0 then n else k - 1;
  }

  lemma DecidingStandsFirst(docs: seq<Document>, i: nat, sku: string, thr: real, th: Theory)
    requires i < |docs| && PriceIn(docs[i], sku, thr, th).Some?
    requires forall k :: 0 <= k < Standing(docs, i) ==> PriceIn(PriceOrder(docs)[k], sku, thr, th).None?
    ensures DecidesPrice(docs, i, sku, thr, th)
  {
    FirstInvoiceIs(docs);
    var n := FirstInvoice(docs);
    if i != n {
      forall m | 0 <= m < |docs| && (m < i || m == n) && (m == n ==> IsFirstInvoice(docs, m))
        ensures PriceIn(docs[m], sku, thr, th).None?
      {
        assert Standing(docs, m) < Standing(docs, i);
      }
    }
  }

  lemma OnlyOneDecides(docs: seq<Document>, i: nat, j: nat, sku: string, thr: real, th: Theory)
    requires i < |docs| && j < |docs|
    requires DecidesPrice(docs, i, sku, thr, th) && DecidesPrice(docs, j, sku, thr, th)
    ensures i == j
  {
  }

  /** A price is trusted as soon as a document has one: that of the first invoice, or else of the first document. */
  lemma TrustedPriceFound(docs: seq<Document>, sku: string, thr: real, th: Theory)
    ensures TrustedPrice(docs, sku, thr, th).None? <==>
            forall i :: 0 <= i < |docs| ==> PriceIn(docs[i], sku, thr, th).None?
    ensures forall i :: 0 <= i < |docs| && DecidesPrice(docs, i, sku, thr, th) ==>
              TrustedPrice(docs, sku, thr, th) == Some((PriceIn(docs[i], sku, thr, th).value, docs[i].docType))
    ensures TrustedPrice(docs, sku, thr, th).Some? ==>
              exists i :: 0 <= i < |docs| && DecidesPrice(docs, i, sku, thr, th)
  {
    var ordered := PriceOrder(docs);
    FirstPriceFound(ordered, sku, thr, th);
    forall i | 0 <= i < |docs| ensures ordered[Standing(docs, i)] == docs[i] { }
    if TrustedPrice(docs, sku, thr, th).Some? {
      var k: nat :| k < |ordered| && TrustedPrice(docs, sku, thr, th).value.1 == ordered[k].docType
                    && PriceIn(ordered[k], sku, thr, th) == Some(TrustedPrice(docs, sku, thr, th).value.0)
                    && forall j :: 0 <= j < k ==> PriceIn(ordered[j], sku, thr, th).None?;
      var i := StandsFor(docs, k);
      DecidingStandsFirst(docs, i, sku, thr, th);
      forall j | 0 <= j < |docs| && DecidesPrice(docs, j, sku, thr, th) ensures j == i {
        OnlyOneDecides(docs, i, j, sku, thr, th);
      }
    } else {
      forall i | 0 <= i < |docs| ensures PriceIn(docs[i], sku, thr, th).None? {
        assert PriceIn(ordered[Standing(docs, i)], sku, thr, th).None?;
      }
    }
  }

  lemma SpreadPriced(q: seq<real>, price: Option<(real, DocType)>) returns (spread: real)
    requires q != [] && !AllSame(q)
    ensures spread > 0.0 && IsSpread(q, spread) && QuantityConflict(q, price) == Priced(spread, price)
  {
    SpreadOfExtremes(q);
    spread := MaxOf(q) - MinOf(q);
  }

  lemma PricedIsProduct(spread: real, price: Option<(real, DocType)>)
    requires spread > 0.0
    ensures var m := Priced(spread, price);
            && (m.estimate.Some? <==> price.Some? && price.value.0 > 0.0)
            && (m.estimate.Some? ==> m.estimate.value == spread * price.value.0)
            && (m.source == if price.Some? then Some(price.value.1) else None)
  {
    if price.Some? && price.value.0 > 0.0 {
      var p := price.value.0;
      assert spread * p > 0.0;
    }
  }

  lemma ConflictFound(docs: seq<Document>, items: seq<Item>, sku: string, thr: real, th: Theory) returns (q: seq<real>)
    requires H.QuantitiesConflict(items, thr, th)
    ensures |q| == |items| && q != [] && !AllSame(q)
    ensures forall i :: 0 <= i < |items| ==> Quantity(items[i], thr, th) == Some(q[i])
    ensures QuantityCheck(docs, items, sku, thr, th) == [QuantityConflict(q, TrustedPrice(docs, sku, thr, th))]
  {
    q := Quantities(items, thr, th);
    assert forall i :: 0 <= i < |items| ==> Quantity(items[i], thr, th) == Some(q[i]);
    SpecifiedQuantities(docs, items, sku, thr, th, q);
  }

  /**
   * A conflict of quantities gives one finding of high severity. Its estimate is the spread of the
   * quantities times the trusted price, if there is one and it is positive, and its source is the
   * document of that price.
   */
  lemma QuantityEstimate(docs: seq<Document>, items: seq<Item>, sku: string, thr: real, th: Theory)
      returns (q: seq<real>, spread: real, finding: Mismatch)
    requires H.QuantitiesConflict(items, thr, th)
    ensures |q| == |items| && forall i :: 0 <= i < |items| ==> Quantity(items[i], thr, th) == Some(q[i])
    ensures spread > 0.0 && IsSpread(q, spread)
    ensures QuantityCheck(docs, items, sku, thr, th) == [finding]
    ensures finding.kind == QuantityMismatch && finding.severity == High
    ensures var price := TrustedPrice(docs, sku, thr, th);
            && (finding.estimate.Some? <==> price.Some? && price.value.0 > 0.0)
            && (finding.estimate.Some? ==> finding.estimate.value == spread * price.value.0)
            && (finding.source == if price.Some? then Some(price.value.1) else None)
  {
    q := ConflictFound(docs, items, sku, thr, th);
    spread := SpreadPriced(q, TrustedPrice(docs, sku, thr, th));
    finding := Priced(spread, TrustedPrice(docs, sku, thr, th));
    PricedIsProduct(spread, TrustedPrice(docs, sku, thr, th));
  }
}
