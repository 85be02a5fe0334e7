/** What a CLEAR decision means, item by item and without maps, and how it depends on the threshold. */
module ClearDecision {
  import opened Wrappers
  import opened Reconciliation
  import opened Filing
  import StringOrder

  predicate AllPresent(documents: map<DocType, Document>) {
    Invoice in documents && PackingList in documents && DeliveryOrder in documents
  }

  predicate VerifiedType(d: Document, thr: real) {
    d.detected == Some(d.docType) && d.typeConfidence >= thr
  }

  /** A confident value in every document, the same after normalisation. */
  predicate TextClear(docs: seq<Document>, f: TextField, thr: real, th: Theory) {
    && (forall i :: 0 <= i < |docs| ==> !Weak(f.Of(docs[i]), thr))
    && (forall i, j :: 0 <= i < |docs| && 0 <= j < |docs| ==>
          f.Normalise(Str(f.Of(docs[i]).value), th) == f.Normalise(Str(f.Of(docs[j]).value), th))
  }

  /** The shipment identifiers that are given agree after normalisation. */
  predicate ShipmentsAgree(docs: seq<Document>, th: Theory) {
    forall i, j | 0 <= i < |docs| && 0 <= j < |docs| ::
      Truthy(docs[i].shipmentId.value) && Truthy(docs[j].shipmentId.value) ==>
      th.normText(Str(docs[i].shipmentId.value)) == th.normText(Str(docs[j].shipmentId.value))
  }

  predicate HeaderClear(docs: seq<Document>, thr: real, th: Theory) {
    && (forall i :: 0 <= i < |docs| ==> VerifiedType(docs[i], thr))
    && (forall i :: 0 <= i < |docs| ==> !Weak(docs[i].documentId, thr))
    && TextClear(docs, RecipientField, thr, th)
    && TextClear(docs, DestinationField, thr, th)
    && TextClear(docs, SenderField, thr, th)
    && ShipmentsAgree(docs, th)
  }

  /** The totals that are trusted and parse agree. */
  predicate TotalsAgree(docs: seq<Document>, thr: real, th: Theory) {
    forall i, j | 0 <= i < |docs| && 0 <= j < |docs| ::
      TrustedTotal(docs[i], thr, th).Some? && TrustedTotal(docs[j], thr, th).Some? ==>
      TrustedTotal(docs[i], thr, th) == TrustedTotal(docs[j], thr, th)
  }

  /** Complete, not empty, every row confident, no SKU twice. */
  predicate ItemsClear(d: Document, thr: real, th: Theory) {
    && d.complete && d.items != []
    && (forall i :: 0 <= i < |d.items| ==> !WeakItem(d.items[i], thr))
    && (forall i, j :: 0 <= i < j < |d.items| && Sku(d.items[i], th) != "" ==>
         Sku(d.items[i], th) != Sku(d.items[j], th))
  }

  predicate Lists(d: Document, sku: string, th: Theory) {
    exists i :: 0 <= i < |d.items| && Sku(d.items[i], th) == sku
  }

  /** Every SKU that is not blank stands in every document. */
  predicate SameSkus(docs: seq<Document>, th: Theory) {
    forall i, j, k | 0 <= i < |docs| && 0 <= j < |docs| && 0 <= k < |docs[i].items| ::
      Sku(docs[i].items[k], th) != "" ==>
      Lists(docs[j], Sku(docs[i].items[k], th), th)
  }

  /** One item of each document. */
  predicate Row(docs: seq<Document>, rows: seq<nat>) {
    |rows| == |docs| && forall i :: 0 <= i < |docs| ==> rows[i] < |docs[i].items|
  }

  function ItemsOf(docs: seq<Document>, rows: seq<nat>): seq<Item>
    requires Row(docs, rows)
  {
    seq(|docs|, i requires 0 <= i < |docs| => docs[i].items[rows[i]])
  }

  predicate SameSku(items: seq<Item>, sku: string, th: Theory) {
    forall i :: 0 <= i < |items| ==> Sku(items[i], th) == sku
  }

  /** Unless one of them does not parse, all are positive and the same. */
  predicate QuantitiesClear(quantities: seq<Option<real>>) {
    (forall i :: 0 <= i < |quantities| ==> quantities[i].Some?) ==>
      && (forall i :: 0 <= i < |quantities| ==> quantities[i].value > 0.0)
      && (forall i, j :: 0 <= i < |quantities| && 0 <= j < |quantities| ==> quantities[i] == quantities[j])
  }

  /** Descriptions agree unless one is blank; quantities that all parse are positive and agree. */
  predicate Consistent(items: seq<Item>, th: Theory) {
    && ((forall i :: 0 <= i < |items| ==> Description(items[i], th) != "") ==>
          forall i, j :: 0 <= i < |items| && 0 <= j < |items| ==>
              Description(items[i], th) == Description(items[j], th))
    && QuantitiesClear(seq(|items|, i requires 0 <= i < |items| => Parse(items[i].quantity.value, th)))
  }

  /** Items of one SKU, one from each document, are consistent. */
  ghost predicate RowsConsistent(docs: seq<Document>, th: Theory) {
    forall rows, sku :: Row(docs, rows) && sku != "" && SameSku(ItemsOf(docs, rows), sku, th) ==>
      Consistent(ItemsOf(docs, rows), th)
  }

  ghost predicate LinesClear(docs: seq<Document>, thr: real, th: Theory) {
    && (forall i :: 0 <= i < |docs| ==> ItemsClear(docs[i], thr, th))
    && SameSkus(Filers(docs), th)
    && RowsConsistent(Filers(docs), th)
  }

  /** Everything CLEAR asks for, except agreement of the totals. */
  ghost predicate ClearExceptTotals(documents: map<DocType, Document>, thr: real, th: Theory) {
    && AllPresent(documents) && HeaderClear(InOrder(documents), thr, th) && LinesClear(InOrder(documents), thr, th)
  }

  // ---------------------------------------------------------------------------------------------
  // Header
  // ---------------------------------------------------------------------------------------------

  lemma {:induction false} TypeChecksEmpty(docs: seq<Document>, thr: real)
    ensures TypeChecks(docs, thr) == [] <==> forall i :: 0 <= i < |docs| ==> VerifiedType(docs[i], thr)
  {
    if docs != [] {
      var rest := docs[..|docs| - 1];
      TypeChecksEmpty(rest, thr);
      assert TypeCheck(docs[|docs| - 1], thr) == [] <==> VerifiedType(docs[|docs| - 1], thr);
      assert forall i :: 0 <= i < |rest| ==> rest[i] == docs[i];
    }
  }

  lemma {:induction false} IdChecksEmpty(docs: seq<Document>, thr: real)
    ensures IdChecks(docs, thr) == [] <==> forall i :: 0 <= i < |docs| ==> !Weak(docs[i].documentId, thr)
  {
    if docs != [] {
      var rest := docs[..|docs| - 1];
      IdChecksEmpty(rest, thr);
      assert forall i :: 0 <= i < |rest| ==> rest[i] == docs[i];
    }
  }

  lemma CompareTextEmpty(docs: seq<Document>, f: TextField, thr: real, th: Theory)
    requires docs != []
    ensures CompareText(docs, f, thr, th) == [] <==> TextClear(docs, f, thr, th)
  {
    var values := NormalisedValues(docs, f, th);
    assert forall i :: 0 <= i < |docs| ==> values[i] == f.Normalise(Str(f.Of(docs[i]).value), th);
  }

  lemma {:induction false} ShipmentIdsHold(docs: seq<Document>, th: Theory, x: string)
    ensures x in ShipmentIds(docs, th) <==>
            exists i :: 0 <= i < |docs| && Truthy(docs[i].shipmentId.value)
                        && th.normText(Str(docs[i].shipmentId.value)) == x
  {
    if docs != [] {
      var rest := docs[..|docs| - 1];
      ShipmentIdsHold(rest, th, x);
      assert forall i :: 0 <= i < |rest| ==> rest[i] == docs[i];
      if x in ShipmentIds(rest, th) {
        var i :| 0 <= i < |rest| && Truthy(rest[i].shipmentId.value) && th.normText(Str(rest[i].shipmentId.value)) == x;
        assert Truthy(docs[i].shipmentId.value);
      }
    }
  }

  lemma AllSameByMembers<T>(s: seq<T>)
    ensures AllSame(s) <==> forall x, y :: x in s && y in s ==> x == y
  {
    if forall x, y :: x in s && y in s ==> x == y {
      forall i, j | 0 <= i < j < |s| ensures s[i] == s[j] { assert s[i] in s && s[j] in s; }
    }
  }

  lemma ShipmentCheckEmpty(docs: seq<Document>, th: Theory)
    ensures ShipmentCheck(docs, th) == [] <==> ShipmentsAgree(docs, th)
  {
    var ids := ShipmentIds(docs, th);
    AllSameByMembers(ids);
    forall x { ShipmentIdsHold(docs, th, x); }
    if ShipmentsAgree(docs, th) {
      forall x, y | x in ids && y in ids ensures x == y {
        var i :| 0 <= i < |docs| && Truthy(docs[i].shipmentId.value) && th.normText(Str(docs[i].shipmentId.value)) == x;
        var j :| 0 <= j < |docs| && Truthy(docs[j].shipmentId.value) && th.normText(Str(docs[j].shipmentId.value)) == y;
      }
    }
    if AllSame(ids) {
      forall i, j | 0 <= i < |docs| && 0 <= j < |docs|
                    && Truthy(docs[i].shipmentId.value) && Truthy(docs[j].shipmentId.value)
        ensures th.normText(Str(docs[i].shipmentId.value)) == th.normText(Str(docs[j].shipmentId.value))
      {
        assert th.normText(Str(docs[i].shipmentId.value)) in ids && th.normText(Str(docs[j].shipmentId.value)) in ids;
      }
    }
  }

  lemma HeaderEmpty(documents: map<DocType, Document>, thr: real, th: Theory)
    requires AllPresent(documents)
    ensures HeaderMismatches(documents, thr, th) == [] <==> HeaderClear(InOrder(documents), thr, th)
  {
    var docs := InOrder(documents);
    TypeChecksEmpty(docs, thr);
    IdChecksEmpty(docs, thr);
    CompareTextEmpty(docs, RecipientField, thr, th);
    CompareTextEmpty(docs, DestinationField, thr, th);
    CompareTextEmpty(docs, SenderField, thr, th);
    ShipmentCheckEmpty(docs, th);
  }

  lemma AmountsGrow(docs: seq<Document>, thr: real, th: Theory)
    requires docs != []
    ensures var total := TrustedTotal(docs[|docs| - 1], thr, th);
            Amounts(TrustedTotals(docs, thr, th)) ==
            Amounts(TrustedTotals(docs[..|docs| - 1], thr, th)) + if total.Some? then [total.value] else []
  {
  }

  lemma {:induction false} TotalIsListed(docs: seq<Document>, thr: real, i: nat, th: Theory)
    requires i < |docs| && TrustedTotal(docs[i], thr, th).Some?
    ensures TrustedTotal(docs[i], thr, th).value in Amounts(TrustedTotals(docs, thr, th))
  {
    AmountsGrow(docs, thr, th);
    if i < |docs| - 1 { TotalIsListed(docs[..|docs| - 1], thr, i, th); }
  }

  lemma {:induction false} TotalOfSome(docs: seq<Document>, thr: real, x: real, th: Theory) returns (i: nat)
    requires x in Amounts(TrustedTotals(docs, thr, th))
    ensures i < |docs| && TrustedTotal(docs[i], thr, th) == Some(x)
  {
    AmountsGrow(docs, thr, th);
    i := |docs| - 1;
    if x in Amounts(TrustedTotals(docs[..i], thr, th)) {
      i := TotalOfSome(docs[..i], thr, x, th);
    }
  }

  lemma TotalCheckEmpty(docs: seq<Document>, thr: real, th: Theory)
    ensures TotalCheck(docs, thr, th) == [] <==> TotalsAgree(docs, thr, th)
  {
    var amounts := Amounts(TrustedTotals(docs, thr, th));
    AllSameByMembers(amounts);
    if TotalsAgree(docs, thr, th) {
      forall x, y | x in amounts && y in amounts ensures x == y {
        var i := TotalOfSome(docs, thr, x, th);
        var j := TotalOfSome(docs, thr, y, th);
        assert TrustedTotal(docs[i], thr, th) == TrustedTotal(docs[j], thr, th);
      }
    }
    if AllSame(amounts) {
      forall i, j | 0 <= i < |docs| && 0 <= j < |docs|
                    && TrustedTotal(docs[i], thr, th).Some? && TrustedTotal(docs[j], thr, th).Some?
        ensures TrustedTotal(docs[i], thr, th) == TrustedTotal(docs[j], thr, th)
      {
        TotalIsListed(docs, thr, i, th);
        TotalIsListed(docs, thr, j, th);
      }
    }
  }

  // ---------------------------------------------------------------------------------------------
  // Items of one document
  // ---------------------------------------------------------------------------------------------

  lemma {:induction false} WeakRowsEmpty(items: seq<Item>, thr: real)
    ensures WeakRows(items, thr) == [] <==> forall i :: 0 <= i < |items| ==> !WeakItem(items[i], thr)
  {
    if items != [] {
      var rest := items[..|items| - 1];
      WeakRowsEmpty(rest, thr);
      assert forall i :: 0 <= i < |rest| ==> rest[i] == items[i];
    }
  }

  /** Keys appear in item order, so a key is repeated exactly when two items carry it. */
  lemma {:induction false} KeysHold(items: seq<Item>, thr: real, th: Theory, k: string)
    ensures k in Keys(items, thr, th) <==> exists i :: 0 <= i < |items| && Key(items[i], thr, th) == Some(k)
  {
    if items != [] {
      var rest := items[..|items| - 1];
      KeysHold(rest, thr, th, k);
      assert forall i :: 0 <= i < |rest| ==> rest[i] == items[i];
      if k in Keys(rest, thr, th) {
        var i :| 0 <= i < |rest| && Key(rest[i], thr, th) == Some(k);
        assert Key(items[i], thr, th) == Some(k);
      }
      if exists i :: 0 <= i < |items| && Key(items[i], thr, th) == Some(k) {
        var i :| 0 <= i < |items| && Key(items[i], thr, th) == Some(k);
        assert i < |rest| ==> Key(rest[i], thr, th) == Some(k);
      }
    }
  }

  predicate Collides(items: seq<Item>, thr: real, th: Theory, k: string) {
    exists i, j :: 0 <= i < j < |items| && Key(items[i], thr, th) == Some(k) && Key(items[j], thr, th) == Some(k)
  }

  lemma {:induction false} CollisionRepeats(items: seq<Item>, thr: real, th: Theory, k: string, i: nat, j: nat)
    requires i < j < |items| && Key(items[i], thr, th) == Some(k) && Key(items[j], thr, th) == Some(k)
    ensures multiset(Keys(items, thr, th))[k] > 1
  {
    var rest := items[..|items| - 1];
    if j < |rest| {
      CollisionRepeats(rest, thr, th, k, i, j);
    } else {
      KeysHold(rest, thr, th, k);
      assert Key(rest[i], thr, th) == Some(k);
      assert k in multiset(Keys(rest, thr, th));
    }
  }

  lemma {:induction false} RepeatedCollides(items: seq<Item>, thr: real, th: Theory, k: string) returns (i: nat, j: nat)
    requires multiset(Keys(items, thr, th))[k] > 1
    ensures i < j < |items| && Key(items[i], thr, th) == Some(k) && Key(items[j], thr, th) == Some(k)
  {
    var rest := items[..|items| - 1];
    if multiset(Keys(rest, thr, th))[k] > 1 {
      i, j := RepeatedCollides(rest, thr, th, k);
    } else {
      KeysHold(rest, thr, th, k);
      assert k in multiset(Keys(rest, thr, th));
      var n: nat :| n < |rest| && Key(rest[n], thr, th) == Some(k);
      i, j := n, |rest|;
    }
  }

  lemma RepeatedMeansCollision(items: seq<Item>, thr: real, th: Theory, k: string)
    ensures multiset(Keys(items, thr, th))[k] > 1 <==> Collides(items, thr, th, k)
  {
    if multiset(Keys(items, thr, th))[k] > 1 {
      var i, j := RepeatedCollides(items, thr, th, k);
    } else if Collides(items, thr, th, k) {
      var i, j :| 0 <= i < j < |items| && Key(items[i], thr, th) == Some(k) && Key(items[j], thr, th) == Some(k);
      CollisionRepeats(items, thr, th, k, i, j);
    }
  }

  lemma DuplicateSkusEmpty(d: Document, thr: real, th: Theory)
    ensures DuplicateSkus(d, thr, th) == [] <==> forall k :: !Collides(d.items, thr, th, k)
  {
    var keys := Keys(d.items, thr, th);
    forall k
      ensures k in Repeated(keys) <==> Collides(d.items, thr, th, k)
    {
      RepeatedMeansCollision(d.items, thr, th, k);
    }
    if Repeated(keys) == {} {
      forall k ensures !Collides(d.items, thr, th, k) { assert k !in Repeated(keys); }
    } else {
      var k :| k in Repeated(keys);
      assert Collides(d.items, thr, th, k);
    }
  }

  predicate RowsClear(d: Document, thr: real, th: Theory) {
    && d.complete && (forall i :: 0 <= i < |d.items| ==> !WeakItem(d.items[i], thr))
    && (forall i, j :: 0 <= i < j < |d.items| && Sku(d.items[i], th) != "" ==>
         Sku(d.items[i], th) != Sku(d.items[j], th))
  }

  lemma RowsEmpty(d: Document, thr: real, th: Theory)
    ensures (DuplicateSkus(d, thr, th) == [] && d.complete && WeakRows(d.items, thr) == []) <==> RowsClear(d, thr, th)
  {
    DuplicateSkusEmpty(d, thr, th);
    WeakRowsEmpty(d.items, thr);
    if forall i :: 0 <= i < |d.items| ==> !WeakItem(d.items[i], thr) {
      forall i | 0 <= i < |d.items|
        ensures Key(d.items[i], thr, th) == if Sku(d.items[i], th) != "" then Some(Sku(d.items[i], th)) else None
      {
        assert !WeakItem(d.items[i], thr);
      }
      if forall k :: !Collides(d.items, thr, th, k) {
        forall i, j | 0 <= i < j < |d.items| && Sku(d.items[i], th) != ""
          ensures Sku(d.items[i], th) != Sku(d.items[j], th)
        {
          assert !Collides(d.items, thr, th, Sku(d.items[i], th));
        }
      }
    }
  }

  lemma ItemChecksEmptyStep(docs: seq<Document>, thr: real, th: Theory)
    requires docs != []
    ensures ItemChecks(docs, thr, th) == [] <==>
            ItemChecks(docs[..|docs| - 1], thr, th) == [] && RowsClear(docs[|docs| - 1], thr, th)
  {
    RowsEmpty(docs[|docs| - 1], thr, th);
  }

  predicate AllRowsClear(docs: seq<Document>, thr: real, th: Theory) {
    forall i :: 0 <= i < |docs| ==> RowsClear(docs[i], thr, th)
  }

  lemma AllRowsClearStep(docs: seq<Document>, thr: real, th: Theory)
    requires docs != []
    ensures AllRowsClear(docs, thr, th) <==>
            AllRowsClear(docs[..|docs| - 1], thr, th) && RowsClear(docs[|docs| - 1], thr, th)
  {
    var rest := docs[..|docs| - 1];
    assert forall i :: 0 <= i < |rest| ==> rest[i] == docs[i];
  }

  lemma {:induction false} ItemChecksEmpty(docs: seq<Document>, thr: real, th: Theory)
    ensures ItemChecks(docs, thr, th) == [] <==> AllRowsClear(docs, thr, th)
  {
    if docs != [] {
      ItemChecksEmptyStep(docs, thr, th);
      ItemChecksEmpty(docs[..|docs| - 1], thr, th);
      AllRowsClearStep(docs, thr, th);
    }
  }

  // ---------------------------------------------------------------------------------------------
  // One SKU
  // ---------------------------------------------------------------------------------------------

  /** The map holds, for each key, the last item that carries it. */
  lemma {:induction false} ItemMapHolds(items: seq<Item>, thr: real, th: Theory, k: string)
    ensures k in ItemMap(items, thr, th) <==> exists i :: 0 <= i < |items| && Key(items[i], thr, th) == Some(k)
    ensures k in ItemMap(items, thr, th) ==>
              exists i :: 0 <= i < |items| && Key(items[i], thr, th) == Some(k)
                          && ItemMap(items, thr, th)[k] == items[i]
  {
    if items != [] {
      var rest, last := items[..|items| - 1], |items| - 1;
      ItemMapHolds(rest, thr, th, k);
      assert forall i :: 0 <= i < |rest| ==> rest[i] == items[i];
      if k in ItemMap(rest, thr, th) {
        var i :| 0 <= i < |rest| && Key(rest[i], thr, th) == Some(k) && ItemMap(rest, thr, th)[k] == rest[i];
        assert Key(items[i], thr, th) == Some(k) && ItemMap(rest, thr, th)[k] == items[i];
      }
      if exists i :: 0 <= i < |items| && Key(items[i], thr, th) == Some(k) {
        var i :| 0 <= i < |items| && Key(items[i], thr, th) == Some(k);
        assert i < |rest| ==> Key(rest[i], thr, th) == Some(k);
      }
    }
  }

  /** In a clear document a SKU that is not blank is on file exactly when it is listed, as its only item. */
  lemma OnFileInClear(d: Document, sku: string, thr: real, th: Theory)
    requires ItemsClear(d, thr, th) && sku != ""
    ensures Lookup(ItemMap(d.items, thr, th), sku).Some? <==> Lists(d, sku, th)
    ensures forall i :: 0 <= i < |d.items| && Sku(d.items[i], th) == sku ==>
            Lookup(ItemMap(d.items, thr, th), sku) == Some(d.items[i])
  {
    ItemMapHolds(d.items, thr, th, sku);
    forall i | 0 <= i < |d.items| ensures Key(d.items[i], thr, th) == Some(sku) <==> Sku(d.items[i], th) == sku {
      assert !WeakItem(d.items[i], thr);
    }
    forall i | 0 <= i < |d.items| && Sku(d.items[i], th) == sku
      ensures Lookup(ItemMap(d.items, thr, th), sku) == Some(d.items[i])
    {
      assert Key(d.items[i], thr, th) == Some(sku);
      var j :| 0 <= j < |d.items| && Key(d.items[j], thr, th) == Some(sku)
               && ItemMap(d.items, thr, th)[sku] == d.items[j];
      assert Sku(d.items[j], th) == sku;
    }
  }

  predicate AllClear(docs: seq<Document>, thr: real, th: Theory) {
    forall i :: 0 <= i < |docs| ==> ItemsClear(docs[i], thr, th)
  }

  lemma NoUncertainTypes(docs: seq<Document>, thr: real, th: Theory)
    requires AllClear(docs, thr, th)
    ensures UncertainTypes(docs, thr) == {}
  {
    forall i | 0 <= i < |docs| ensures !UncertainItems(docs[i], thr) { assert ItemsClear(docs[i], thr, th); }
  }

  /** No value of a row is weak, as in documents whose items are clear. */
  predicate Strong(items: seq<Item>, thr: real) {
    forall i :: 0 <= i < |items| ==> !WeakItem(items[i], thr)
  }

  lemma DescriptionCheckEmpty(items: seq<Item>, thr: real, th: Theory)
    requires Strong(items, thr)
    ensures DescriptionCheck(items, thr, th) == [] <==>
            ((forall i :: 0 <= i < |items| ==> Description(items[i], th) != "") ==>
               forall i, j :: 0 <= i < |items| && 0 <= j < |items| ==>
                   Description(items[i], th) == Description(items[j], th))
  {
    var texts := Descriptions(items, th);
    forall i | 0 <= i < |items|
      ensures texts[i] == Description(items[i], th) && (Described(items[i], thr, th) <==> texts[i] != "")
    {
      assert !WeakItem(items[i], thr);
    }
  }

  lemma QuantitiesInStrong(items: seq<Item>, thr: real, th: Theory)
    requires Strong(items, thr)
    ensures forall i :: 0 <= i < |items| ==> Quantity(items[i], thr, th) == Parse(items[i].quantity.value, th)
  {
    forall i | 0 <= i < |items|
      ensures Quantity(items[i], thr, th) == Parse(items[i].quantity.value, th)
    {
      assert !WeakItem(items[i], thr);
    }
  }

  lemma QuantityCheckEmpty(docs: seq<Document>, items: seq<Item>, sku: string, thr: real, th: Theory,
      quantities: seq<Option<real>>)
    requires |quantities| == |items| && forall i :: 0 <= i < |items| ==> quantities[i] == Quantity(items[i], thr, th)
    ensures QuantityCheck(docs, items, sku, thr, th) == [] <==> QuantitiesClear(quantities)
  {
    if forall i :: 0 <= i < |items| ==> quantities[i].Some? {
      var q := Quantities(items, thr, th);
      assert forall i :: 0 <= i < |items| ==> q[i] == quantities[i].value;
    }
  }

  lemma ConsistentIffChecksEmpty(docs: seq<Document>, items: seq<Item>, sku: string, thr: real, th: Theory)
    requires Strong(items, thr)
    ensures (DescriptionCheck(items, thr, th) == [] && QuantityCheck(docs, items, sku, thr, th) == []) <==>
            Consistent(items, th)
  {
    DescriptionCheckEmpty(items, thr, th);
    QuantitiesInStrong(items, thr, th);
    QuantityCheckEmpty(docs, items, sku, thr, th,
        seq(|items|, i requires 0 <= i < |items| => Parse(items[i].quantity.value, th)));
  }

  ghost predicate SkuClear(docs: seq<Document>, sku: string, th: Theory) {
    && (forall j :: 0 <= j < |docs| ==> Lists(docs[j], sku, th))
    && (forall rows :: Row(docs, rows) && SameSku(ItemsOf(docs, rows), sku, th) ==> Consistent(ItemsOf(docs, rows), th))
  }

  lemma FoundInClear(docs: seq<Document>, sku: string, thr: real, th: Theory, j: nat)
    requires AllClear(docs, thr, th) && sku != "" && j < |docs|
    ensures OnFile(docs, sku, thr, th)[j].Some? <==> Lists(Filers(docs)[j], sku, th)
    ensures forall i :: 0 <= i < |Filers(docs)[j].items| && Sku(Filers(docs)[j].items[i], th) == sku ==>
            OnFile(docs, sku, thr, th)[j] == Some(Filers(docs)[j].items[i])
  {
    MapIsOfFiler(docs, j, thr, th);
    assert ItemsClear(Filers(docs)[j], thr, th);
    OnFileInClear(Filers(docs)[j], sku, thr, th);
  }

  /** The row of a SKU that every document lists is what is on file for it. */
  lemma RowOnFile(docs: seq<Document>, sku: string, rows: seq<nat>, thr: real, th: Theory)
    requires AllClear(docs, thr, th) && sku != ""
    requires Row(Filers(docs), rows) && SameSku(ItemsOf(Filers(docs), rows), sku, th)
    ensures forall j :: 0 <= j < |docs| ==> OnFile(docs, sku, thr, th)[j] == Some(ItemsOf(Filers(docs), rows)[j])
    ensures Strong(ItemsOf(Filers(docs), rows), thr)
  {
    var items := ItemsOf(Filers(docs), rows);
    forall j | 0 <= j < |docs| ensures OnFile(docs, sku, thr, th)[j] == Some(items[j]) && !WeakItem(items[j], thr) {
      assert Sku(items[j], th) == sku;
      FoundInClear(docs, sku, thr, th, j);
      assert ItemsClear(Filers(docs)[j], thr, th);
    }
  }

  lemma RowExists(docs: seq<Document>, sku: string, th: Theory) returns (rows: seq<nat>)
    requires forall j :: 0 <= j < |docs| ==> Lists(docs[j], sku, th)
    ensures Row(docs, rows) && SameSku(ItemsOf(docs, rows), sku, th)
  {
    rows := [];
    for j := 0 to |docs|
      invariant |rows| == j
      invariant forall i :: 0 <= i < j ==> rows[i] < |docs[i].items| && Sku(docs[i].items[rows[i]], th) == sku
    {
      assert Lists(docs[j], sku, th);
      var r: nat :| r < |docs[j].items| && Sku(docs[j].items[r], th) == sku;
      rows := rows + [r];
    }
  }

  lemma AbsentSkuFails(docs: seq<Document>, sku: string, thr: real, th: Theory)
    requires AllClear(docs, thr, th) && sku != ""
    requires exists j :: 0 <= j < |docs| && !Lists(Filers(docs)[j], sku, th)
    ensures SkuCheck(docs, sku, thr, th) != []
  {
    var j :| 0 <= j < |docs| && !Lists(Filers(docs)[j], sku, th);
    FoundInClear(docs, sku, thr, th, j);
    assert OnFile(docs, sku, thr, th)[j].None?;
    NoUncertainTypes(docs, thr, th);
  }

  lemma RowIsUnique(docs: seq<Document>, sku: string, rows: seq<nat>, others: seq<nat>, thr: real, th: Theory)
    requires AllClear(docs, thr, th) && sku != ""
    requires Row(Filers(docs), rows) && SameSku(ItemsOf(Filers(docs), rows), sku, th)
    requires Row(Filers(docs), others) && SameSku(ItemsOf(Filers(docs), others), sku, th)
    ensures ItemsOf(Filers(docs), rows) == ItemsOf(Filers(docs), others)
  {
    RowOnFile(docs, sku, rows, thr, th);
    RowOnFile(docs, sku, others, thr, th);
    var a, b, found := ItemsOf(Filers(docs), rows), ItemsOf(Filers(docs), others), OnFile(docs, sku, thr, th);
    forall j | 0 <= j < |docs| ensures a[j] == b[j] { assert found[j] == Some(a[j]) && found[j] == Some(b[j]); }
  }

  lemma SkuCheckEmpty(docs: seq<Document>, sku: string, thr: real, th: Theory)
    requires AllClear(docs, thr, th) && sku != ""
    ensures SkuCheck(docs, sku, thr, th) == [] <==> SkuClear(Filers(docs), sku, th)
  {
    if exists j :: 0 <= j < |docs| && !Lists(Filers(docs)[j], sku, th) {
      AbsentSkuFails(docs, sku, thr, th);
    } else {
      var row := RowExists(Filers(docs), sku, th);
      var items := ItemsOf(Filers(docs), row);
      RowOnFile(docs, sku, row, thr, th);
      assert Values(OnFile(docs, sku, thr, th)) == items;
      ConsistentIffChecksEmpty(docs, items, sku, thr, th);
      forall rows | Row(Filers(docs), rows) && SameSku(ItemsOf(Filers(docs), rows), sku, th)
        ensures ItemsOf(Filers(docs), rows) == items
      {
        RowIsUnique(docs, sku, rows, row, thr, th);
      }
    }
  }

  // ---------------------------------------------------------------------------------------------
  // All lines
  // ---------------------------------------------------------------------------------------------

  lemma {:induction false} NoSkuCheckFails(docs: seq<Document>, skus: seq<string>, thr: real, th: Theory, i: nat)
    requires SkuChecks(docs, skus, thr, th) == [] && i < |skus|
    ensures SkuCheck(docs, skus[i], thr, th) == []
  {
    if i < |skus| - 1 { NoSkuCheckFails(docs, skus[..|skus| - 1], thr, th, i); }
  }

  lemma LastSkuCheck(docs: seq<Document>, skus: seq<string>, thr: real, th: Theory)
    requires skus != []
    ensures SkuChecks(docs, skus, thr, th) == [] <==>
            SkuChecks(docs, skus[..|skus| - 1], thr, th) == [] && SkuCheck(docs, skus[|skus| - 1], thr, th) == []
  {
  }

  lemma {:induction false} SomeSkuCheckFails(docs: seq<Document>, skus: seq<string>, thr: real, th: Theory)
      returns (i: nat)
    ensures SkuChecks(docs, skus, thr, th) != [] ==> i < |skus| && SkuCheck(docs, skus[i], thr, th) != []
  {
    i := 0;
    if skus != [] {
      LastSkuCheck(docs, skus, thr, th);
      i := SomeSkuCheckFails(docs, skus[..|skus| - 1], thr, th);
      if SkuChecks(docs, skus[..|skus| - 1], thr, th) == [] { i := |skus| - 1; }
    }
  }

  lemma SkuOnFile(docs: seq<Document>, k: string, thr: real, th: Theory)
    requires AllClear(docs, thr, th)
    ensures k in AllSkus(docs, thr, th) <==> k != "" && exists i :: 0 <= i < |docs| && Lists(Filers(docs)[i], k, th)
  {
    forall i | 0 <= i < |docs|
      ensures k in MapFor(docs, docs[i].docType, thr, th) <==> k != "" && Lists(Filers(docs)[i], k, th)
    {
      MapIsOfFiler(docs, i, thr, th);
      assert ItemsClear(Filers(docs)[i], thr, th);
      ItemMapHolds(Filers(docs)[i].items, thr, th, k);
      if k != "" { OnFileInClear(Filers(docs)[i], k, thr, th); }
    }
  }

  /** `skus` are the SKUs that are listed and not blank. */
  lemma SkusClearIff(filed: seq<Document>, skus: set<string>, th: Theory)
    requires filed != []
    requires forall k :: k in skus <==> k != "" && exists i :: 0 <= i < |filed| && Lists(filed[i], k, th)
    ensures (forall k :: k in skus ==> SkuClear(filed, k, th)) <==> SameSkus(filed, th) && RowsConsistent(filed, th)
  {
    if forall k :: k in skus ==> SkuClear(filed, k, th) {
      forall i, j, k | 0 <= i < |filed| && 0 <= j < |filed| && 0 <= k < |filed[i].items|
                       && Sku(filed[i].items[k], th) != ""
        ensures Lists(filed[j], Sku(filed[i].items[k], th), th)
      {
        assert Lists(filed[i], Sku(filed[i].items[k], th), th);
        assert SkuClear(filed, Sku(filed[i].items[k], th), th);
      }
      forall rows, sku | Row(filed, rows) && sku != "" && SameSku(ItemsOf(filed, rows), sku, th)
        ensures Consistent(ItemsOf(filed, rows), th)
      {
        assert Sku(ItemsOf(filed, rows)[0], th) == sku;
        assert Lists(filed[0], sku, th);
        assert SkuClear(filed, sku, th);
      }
    }
    if SameSkus(filed, th) && RowsConsistent(filed, th) {
      forall k | k in skus ensures SkuClear(filed, k, th) {
        var i :| 0 <= i < |filed| && Lists(filed[i], k, th);
        var n :| 0 <= n < |filed[i].items| && Sku(filed[i].items[n], th) == k;
        forall j | 0 <= j < |filed| ensures Lists(filed[j], k, th) {
          assert Sku(filed[i].items[n], th) != "";
        }
      }
    }
  }

  lemma SkuChecksEmpty(docs: seq<Document>, skus: set<string>, thr: real, th: Theory)
    requires AllClear(docs, thr, th) && "" !in skus
    ensures SkuChecks(docs, StringOrder.SortedSet(skus), thr, th) == [] <==>
            forall k :: k in skus ==> SkuClear(Filers(docs), k, th)
  {
    var listed := StringOrder.SortedSet(skus);
    if SkuChecks(docs, listed, thr, th) == [] {
      forall k | k in skus ensures SkuClear(Filers(docs), k, th) {
        var i: nat :| i < |listed| && listed[i] == k;
        NoSkuCheckFails(docs, listed, thr, th, i);
        SkuCheckEmpty(docs, k, thr, th);
      }
    } else {
      var i := SomeSkuCheckFails(docs, listed, thr, th);
      assert listed[i] in listed;
      SkuCheckEmpty(docs, listed[i], thr, th);
    }
  }

  lemma ItemChecksOfClear(docs: seq<Document>, thr: real, th: Theory)
    ensures ItemChecks(docs, thr, th) == [] && EmptyCheck(docs) == [] <==> AllClear(docs, thr, th)
  {
    ItemChecksEmpty(docs, thr, th);
    if AllClear(docs, thr, th) {
      forall i | 0 <= i < |docs|
        ensures RowsClear(docs[i], thr, th) && docs[i].items != []
      {
        assert ItemsClear(docs[i], thr, th);
      }
    } else if ItemChecks(docs, thr, th) == [] && EmptyCheck(docs) == [] {
      forall i | 0 <= i < |docs| ensures ItemsClear(docs[i], thr, th) { assert RowsClear(docs[i], thr, th); }
    }
  }

  lemma ListedSkus(docs: seq<Document>, thr: real, th: Theory)
    requires AllClear(docs, thr, th)
    ensures forall k :: k in AllSkus(docs, thr, th) <==>
                        k != "" && exists i :: 0 <= i < |Filers(docs)| && Lists(Filers(docs)[i], k, th)
  {
    forall k { SkuOnFile(docs, k, thr, th); }
  }

  lemma AllSkuChecksEmpty(docs: seq<Document>, thr: real, th: Theory)
    requires AllClear(docs, thr, th) && docs != []
    ensures SkuChecks(docs, StringOrder.SortedSet(AllSkus(docs, thr, th)), thr, th) == [] <==>
            SameSkus(Filers(docs), th) && RowsConsistent(Filers(docs), th)
  {
    ListedSkus(docs, thr, th);
    SkusClearIff(Filers(docs), AllSkus(docs, thr, th), th);
    SkuChecksEmpty(docs, AllSkus(docs, thr, th), thr, th);
  }

  lemma LinesEmpty(docs: seq<Document>, thr: real, th: Theory)
    requires docs != []
    ensures LineMismatches(docs, thr, th) == [] <==> LinesClear(docs, thr, th)
  {
    ItemChecksOfClear(docs, thr, th);
    if AllClear(docs, thr, th) { AllSkuChecksEmpty(docs, thr, th); }
  }

  // ---------------------------------------------------------------------------------------------
  // Main results
  // ---------------------------------------------------------------------------------------------

  lemma ClearIsEmpty(mismatches: seq<Mismatch>)
    ensures StatusOf(mismatches) == Clear <==> mismatches == []
  {
  }

  lemma NotAllPresent(documents: map<DocType, Document>, thr: real, th: Theory)
    requires !AllPresent(documents)
    ensures Mismatches(documents, thr, th) != []
  {
    assert MissingDocuments(documents) == [Uncertain(Documents)];
  }

  lemma MismatchesEmpty(documents: map<DocType, Document>, thr: real, th: Theory)
    ensures Mismatches(documents, thr, th) == [] <==>
            && HeaderMismatches(documents, thr, th) == []
            && TotalCheck(InOrder(documents), thr, th) == []
            && LineMismatches(InOrder(documents), thr, th) == []
  {
  }

  lemma HeaderAndLinesEmpty(documents: map<DocType, Document>, thr: real, th: Theory)
    requires AllPresent(documents)
    ensures ClearExceptTotals(documents, thr, th) <==>
            HeaderMismatches(documents, thr, th) == [] && LineMismatches(InOrder(documents), thr, th) == []
  {
    HeaderEmpty(documents, thr, th);
    LinesEmpty(InOrder(documents), thr, th);
  }

  /**
   * Reconciliation is CLEAR exactly when the declarative condition holds: nothing in it mentions
   * item maps, sorted SKUs, similarity scores or mismatches.
   */
  lemma ClearIff(documents: map<DocType, Document>, thr: real, th: Theory)
    ensures Reconcile(documents, thr, th).0 == Clear <==>
            ClearExceptTotals(documents, thr, th) && TotalsAgree(InOrder(documents), thr, th)
  {
    ClearIsEmpty(Mismatches(documents, thr, th));
    if AllPresent(documents) {
      HeaderAndLinesEmpty(documents, thr, th);
      TotalCheckEmpty(InOrder(documents), thr, th);
      MismatchesEmpty(documents, thr, th);
    } else {
      NotAllPresent(documents, thr, th);
    }
  }
}
