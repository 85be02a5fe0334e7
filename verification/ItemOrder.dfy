/** The order in which a document lists its items has no influence on the status. */
module ItemOrder {
  import opened Wrappers
  import opened Reconciliation
  import ClearDecision
  import StringOrder

  /** The same document but for the order of its items. */
  predicate Shuffled(d: Document, e: Document) {
    d.(items := e.items) == e && multiset(d.items) == multiset(e.items)
  }

  predicate AllShuffled(docs: seq<Document>, others: seq<Document>) {
    |docs| == |others| && forall i :: 0 <= i < |docs| ==> Shuffled(docs[i], others[i])
  }

  // ---------------------------------------------------------------------------------------------
  // Headers and totals do not look at items
  // ---------------------------------------------------------------------------------------------

  lemma {:induction false} SameTypeChecks(docs: seq<Document>, others: seq<Document>, thr: real)
    requires AllShuffled(docs, others)
    ensures TypeChecks(docs, thr) == TypeChecks(others, thr)
  {
    if docs != [] {
      assert Shuffled(docs[|docs| - 1], others[|docs| - 1]);
      SameTypeChecks(docs[..|docs| - 1], others[..|docs| - 1], thr);
    }
  }

  lemma SameCompareText(docs: seq<Document>, others: seq<Document>, f: TextField, thr: real, th: Theory)
    requires AllShuffled(docs, others)
    ensures CompareText(docs, f, thr, th) == CompareText(others, f, thr, th)
  {
    forall i | 0 <= i < |docs| ensures f.Of(docs[i]) == f.Of(others[i]) { assert Shuffled(docs[i], others[i]); }
    assert NormalisedValues(docs, f, th) == NormalisedValues(others, f, th);
  }

  lemma {:induction false} SameIdChecks(docs: seq<Document>, others: seq<Document>, thr: real)
    requires AllShuffled(docs, others)
    ensures IdChecks(docs, thr) == IdChecks(others, thr)
  {
    if docs != [] {
      assert Shuffled(docs[|docs| - 1], others[|docs| - 1]);
      SameIdChecks(docs[..|docs| - 1], others[..|docs| - 1], thr);
    }
  }

  lemma {:induction false} SameShipmentIds(docs: seq<Document>, others: seq<Document>, th: Theory)
    requires AllShuffled(docs, others)
    ensures ShipmentIds(docs, th) == ShipmentIds(others, th)
  {
    if docs != [] {
      assert Shuffled(docs[|docs| - 1], others[|docs| - 1]);
      SameShipmentIds(docs[..|docs| - 1], others[..|docs| - 1], th);
    }
  }

  lemma {:induction false} SameTotals(docs: seq<Document>, others: seq<Document>, thr: real, th: Theory)
    requires AllShuffled(docs, others)
    ensures TrustedTotals(docs, thr, th) == TrustedTotals(others, thr, th)
  {
    if docs != [] {
      assert Shuffled(docs[|docs| - 1], others[|docs| - 1]);
      SameTotals(docs[..|docs| - 1], others[..|docs| - 1], thr, th);
    }
  }

  lemma SameTotalCheck(docs: seq<Document>, others: seq<Document>, thr: real, th: Theory)
    requires AllShuffled(docs, others)
    ensures TotalCheck(docs, thr, th) == TotalCheck(others, thr, th)
  {
    SameTotals(docs, others, thr, th);
  }

  lemma SameHeader(documents: map<DocType, Document>, others: map<DocType, Document>, thr: real, th: Theory)
    requires documents.Keys == others.Keys && AllShuffled(InOrder(documents), InOrder(others))
    ensures HeaderMismatches(documents, thr, th) == HeaderMismatches(others, thr, th)
  {
    var a, b := InOrder(documents), InOrder(others);
    assert MissingDocuments(documents) == MissingDocuments(others) by {
      assert forall t :: t in documents <==> t in others;
    }
    SameTypeChecks(a, b, thr);
    SameCompareText(a, b, RecipientField, thr, th);
    SameCompareText(a, b, DestinationField, thr, th);
    SameCompareText(a, b, SenderField, thr, th);
    SameIdChecks(a, b, thr);
    SameShipmentIds(a, b, th);
  }

  // ---------------------------------------------------------------------------------------------
  // Keys, duplicates and weak rows
  // ---------------------------------------------------------------------------------------------

  function KeyOf(item: Item, thr: real, th: Theory): seq<string> {
    if Key(item, thr, th).Some? then [Key(item, thr, th).value] else []
  }

  lemma {:induction false} KeysConcat(a: seq<Item>, b: seq<Item>, thr: real, th: Theory)
    ensures Keys(a + b, thr, th) == Keys(a, thr, th) + Keys(b, thr, th)
  {
    if b == [] {
      assert a + b == a;
    } else {
      var rest := b[..|b| - 1];
      assert (a + b)[..|a + b| - 1] == a + rest;
      KeysConcat(a, rest, thr, th);
    }
  }

  lemma KeysAround(a: seq<Item>, x: Item, b: seq<Item>, thr: real, th: Theory)
    ensures multiset(Keys(a + [x] + b, thr, th)) == multiset(Keys(a + b, thr, th)) + multiset(KeyOf(x, thr, th))
  {
    KeysConcat(a + [x], b, thr, th);
    KeysConcat(a, [x], thr, th);
    KeysConcat(a, b, thr, th);
    assert [x][..0] == [];
    assert Keys([x], thr, th) == KeyOf(x, thr, th);
  }

  lemma RemoveOne(s: seq<Item>, t: seq<Item>) returns (j: nat)
    requires s != [] && multiset(s) == multiset(t)
    ensures j < |t| && t == t[..j] + [s[|s| - 1]] + t[j + 1..]
    ensures multiset(s[..|s| - 1]) == multiset(t[..j] + t[j + 1..])
  {
    var x := s[|s| - 1];
    assert s == s[..|s| - 1] + [x];
    assert x in multiset(t);
    j :| 0 <= j < |t| && t[j] == x;
    var u := t[..j] + t[j + 1..];
    assert t == t[..j] + [x] + t[j + 1..];
    assert multiset(t) == multiset(u) + multiset{x};
    assert multiset(s[..|s| - 1]) == multiset(s) - multiset{x} == multiset(u);
  }

  lemma {:induction false} KeysShuffled(items: seq<Item>, others: seq<Item>, thr: real, th: Theory)
    requires multiset(items) == multiset(others)
    ensures multiset(Keys(items, thr, th)) == multiset(Keys(others, thr, th))
  {
    if items == [] {
      assert |multiset(others)| == 0;
    } else {
      var last := |items| - 1;
      var j := RemoveOne(items, others);
      KeysShuffled(items[..last], others[..j] + others[j + 1..], thr, th);
      KeysAround(items[..last], items[last], [], thr, th);
      assert items[..last] + [items[last]] + [] == items && items[..last] + [] == items[..last];
      KeysAround(others[..j], items[last], others[j + 1..], thr, th);
    }
  }

  lemma SameDuplicates(d: Document, e: Document, thr: real, th: Theory)
    requires Shuffled(d, e)
    ensures DuplicateSkus(d, thr, th) == DuplicateSkus(e, thr, th)
  {
    KeysShuffled(d.items, e.items, thr, th);
    var a, b := Keys(d.items, thr, th), Keys(e.items, thr, th);
    forall k ensures k in Repeated(a) <==> k in Repeated(b) {
      assert k in a <==> k in multiset(a);
      assert k in b <==> k in multiset(b);
    }
    assert Repeated(a) == Repeated(b);
  }

  lemma Member(items: seq<Item>, others: seq<Item>, i: nat) returns (j: nat)
    requires multiset(items) == multiset(others) && i < |items|
    ensures j < |others| && others[j] == items[i]
  {
    assert items[i] in multiset(others);
    j :| 0 <= j < |others| && others[j] == items[i];
  }

  lemma WeaknessShuffled(items: seq<Item>, others: seq<Item>, thr: real)
    requires multiset(items) == multiset(others)
    requires exists i :: 0 <= i < |items| && WeakItem(items[i], thr)
    ensures exists i :: 0 <= i < |others| && WeakItem(others[i], thr)
  {
    var i: nat :| i < |items| && WeakItem(items[i], thr);
    var j := Member(items, others, i);
    assert WeakItem(others[j], thr);
  }

  lemma SameWeakness(d: Document, e: Document, thr: real)
    requires Shuffled(d, e)
    ensures WeakRows(d.items, thr) == [] <==> WeakRows(e.items, thr) == []
    ensures UncertainItems(d, thr) <==> UncertainItems(e, thr)
    ensures d.items == [] <==> e.items == []
  {
    assert |d.items| == |multiset(d.items)| == |e.items|;
    ClearDecision.WeakRowsEmpty(d.items, thr);
    ClearDecision.WeakRowsEmpty(e.items, thr);
    if exists i :: 0 <= i < |d.items| && WeakItem(d.items[i], thr) { WeaknessShuffled(d.items, e.items, thr); }
    if exists i :: 0 <= i < |e.items| && WeakItem(e.items[i], thr) { WeaknessShuffled(e.items, d.items, thr); }
  }

  // ---------------------------------------------------------------------------------------------
  // Item checks: equal up to the numbers of the weak rows, none of which is material
  // ---------------------------------------------------------------------------------------------

  predicate AnyMaterial(mismatches: seq<Mismatch>) {
    exists i :: 0 <= i < |mismatches| && Material(mismatches[i])
  }

  lemma AnyMaterialConcat(a: seq<Mismatch>, b: seq<Mismatch>)
    ensures AnyMaterial(a + b) <==> AnyMaterial(a) || AnyMaterial(b)
  {
    if AnyMaterial(a) {
      var i :| 0 <= i < |a| && Material(a[i]);
      assert Material((a + b)[i]);
    }
    if AnyMaterial(b) {
      var i :| 0 <= i < |b| && Material(b[i]);
      assert Material((a + b)[|a| + i]);
    }
  }

  /** Equally empty and equally material: all a decision looks at. */
  predicate Alike(a: seq<Mismatch>, b: seq<Mismatch>) {
    (a == [] <==> b == []) && (AnyMaterial(a) <==> AnyMaterial(b))
  }

  lemma AlikeConcat(a: seq<Mismatch>, b: seq<Mismatch>, c: seq<Mismatch>, d: seq<Mismatch>)
    requires Alike(a, c) && Alike(b, d)
    ensures Alike(a + b, c + d)
  {
    AnyMaterialConcat(a, b);
    AnyMaterialConcat(c, d);
  }

  lemma AlikeStatus(a: seq<Mismatch>, b: seq<Mismatch>)
    requires Alike(a, b)
    ensures StatusOf(a) == StatusOf(b)
  {
  }

  lemma {:induction false} WeakRowsNotMaterial(items: seq<Item>, thr: real)
    ensures !AnyMaterial(WeakRows(items, thr))
  {
    if items != [] { WeakRowsNotMaterial(items[..|items| - 1], thr); }
  }

  lemma AlikeRowChecks(d: Document, e: Document, thr: real, th: Theory)
    requires Shuffled(d, e)
    ensures Alike(RowChecks(d, thr, th), RowChecks(e, thr, th))
  {
    SameDuplicates(d, e, thr, th);
    SameWeakness(d, e, thr);
    WeakRowsNotMaterial(d.items, thr);
    WeakRowsNotMaterial(e.items, thr);
    var own := DuplicateSkus(d, thr, th) + if d.complete then [] else [Uncertain(Items)];
    AlikeConcat(own, WeakRows(d.items, thr), own, WeakRows(e.items, thr));
  }

  lemma {:induction false} AlikeItemChecks(docs: seq<Document>, others: seq<Document>, thr: real, th: Theory)
    requires AllShuffled(docs, others)
    ensures Alike(ItemChecks(docs, thr, th), ItemChecks(others, thr, th))
  {
    if docs != [] {
      var last := |docs| - 1;
      assert Shuffled(docs[last], others[last]);
      AlikeItemChecks(docs[..last], others[..last], thr, th);
      AlikeRowChecks(docs[last], others[last], thr, th);
      AlikeConcat(ItemChecks(docs[..last], thr, th), RowChecks(docs[last], thr, th),
                  ItemChecks(others[..last], thr, th), RowChecks(others[last], thr, th));
    }
  }

  // ---------------------------------------------------------------------------------------------
  // A collision forces HOLD in either order
  // ---------------------------------------------------------------------------------------------

  lemma DuplicateIsMaterial(d: Document, thr: real, th: Theory)
    requires DuplicateSkus(d, thr, th) != []
    ensures AnyMaterial(RowChecks(d, thr, th))
  {
    assert Material(RowChecks(d, thr, th)[0]);
  }

  predicate MaterialRows(d: Document, thr: real, th: Theory) {
    AnyMaterial(RowChecks(d, thr, th))
  }

  lemma LastRowsMaterial(docs: seq<Document>, thr: real, th: Theory)
    requires docs != []
    ensures AnyMaterial(ItemChecks(docs, thr, th)) <==>
            AnyMaterial(ItemChecks(docs[..|docs| - 1], thr, th)) || MaterialRows(docs[|docs| - 1], thr, th)
  {
    AnyMaterialConcat(ItemChecks(docs[..|docs| - 1], thr, th), RowChecks(docs[|docs| - 1], thr, th));
  }

  lemma {:induction false} RowsMakeMaterial(docs: seq<Document>, thr: real, th: Theory, i: nat)
    requires i < |docs| && MaterialRows(docs[i], thr, th)
    ensures AnyMaterial(ItemChecks(docs, thr, th))
  {
    LastRowsMaterial(docs, thr, th);
    if i < |docs| - 1 { RowsMakeMaterial(docs[..|docs| - 1], thr, th, i); }
  }

  lemma DuplicatesAreMaterial(docs: seq<Document>, thr: real, th: Theory, i: nat)
    requires i < |docs| && DuplicateSkus(docs[i], thr, th) != []
    ensures AnyMaterial(ItemChecks(docs, thr, th))
  {
    DuplicateIsMaterial(docs[i], thr, th);
    RowsMakeMaterial(docs, thr, th, i);
  }

  function AfterItems(docs: seq<Document>, thr: real, th: Theory): seq<Mismatch> {
    SkuChecks(docs, StringOrder.SortedSet(AllSkus(docs, thr, th)), thr, th) + EmptyCheck(docs)
  }

  lemma LinesSplit(docs: seq<Document>, thr: real, th: Theory)
    ensures LineMismatches(docs, thr, th) == ItemChecks(docs, thr, th) + AfterItems(docs, thr, th)
  {
  }

  lemma MaterialItemsHold(documents: map<DocType, Document>, thr: real, th: Theory)
    requires AnyMaterial(ItemChecks(InOrder(documents), thr, th))
    ensures StatusOf(Mismatches(documents, thr, th)) == Hold
  {
    var docs := InOrder(documents);
    LinesSplit(docs, thr, th);
    AnyMaterialConcat(ItemChecks(docs, thr, th), AfterItems(docs, thr, th));
    AnyMaterialConcat(HeaderMismatches(documents, thr, th) + TotalCheck(docs, thr, th), LineMismatches(docs, thr, th));
  }

  // ---------------------------------------------------------------------------------------------
  // Without collisions the item maps are equal
  // ---------------------------------------------------------------------------------------------

  lemma LookupShuffled(items: seq<Item>, others: seq<Item>, thr: real, th: Theory, k: string)
    requires multiset(items) == multiset(others)
    requires !ClearDecision.Collides(others, thr, th, k)
    ensures k in ItemMap(items, thr, th) ==>
            k in ItemMap(others, thr, th) && ItemMap(others, thr, th)[k] == ItemMap(items, thr, th)[k]
  {
    ClearDecision.ItemMapHolds(items, thr, th, k);
    ClearDecision.ItemMapHolds(others, thr, th, k);
    if k in ItemMap(items, thr, th) {
      var i: nat :| i < |items| && Key(items[i], thr, th) == Some(k) && ItemMap(items, thr, th)[k] == items[i];
      var j := Member(items, others, i);
      assert Key(others[j], thr, th) == Some(k);
      var n: nat :| n < |others| && Key(others[n], thr, th) == Some(k) && ItemMap(others, thr, th)[k] == others[n];
      assert n == j;
    }
  }

  predicate NoDuplicates(docs: seq<Document>, thr: real, th: Theory) {
    forall i :: 0 <= i < |docs| ==> DuplicateSkus(docs[i], thr, th) == []
  }

  lemma SameItemMap(d: Document, e: Document, thr: real, th: Theory)
    requires Shuffled(d, e) && DuplicateSkus(d, thr, th) == []
    ensures ItemMap(d.items, thr, th) == ItemMap(e.items, thr, th)
  {
    SameDuplicates(d, e, thr, th);
    ClearDecision.DuplicateSkusEmpty(d, thr, th);
    ClearDecision.DuplicateSkusEmpty(e, thr, th);
    forall k
      ensures k in ItemMap(d.items, thr, th) <==> k in ItemMap(e.items, thr, th)
      ensures k in ItemMap(d.items, thr, th) ==> ItemMap(d.items, thr, th)[k] == ItemMap(e.items, thr, th)[k]
    {
      LookupShuffled(d.items, e.items, thr, th, k);
      LookupShuffled(e.items, d.items, thr, th, k);
    }
  }

  predicate Twins(d: Document, e: Document, thr: real, th: Theory) {
    Shuffled(d, e) && ItemMap(d.items, thr, th) == ItemMap(e.items, thr, th)
  }

  /** Shuffled documents whose items are filed alike. */
  predicate FiledAlike(docs: seq<Document>, others: seq<Document>, thr: real, th: Theory) {
    |docs| == |others| && forall i :: 0 <= i < |docs| ==> Twins(docs[i], others[i], thr, th)
  }

  lemma FiledMeansShuffled(docs: seq<Document>, others: seq<Document>, thr: real, th: Theory)
    requires FiledAlike(docs, others, thr, th)
    ensures AllShuffled(docs, others)
  {
    forall i | 0 <= i < |docs| ensures Shuffled(docs[i], others[i]) { assert Twins(docs[i], others[i], thr, th); }
  }

  lemma {:induction false} SameMapFor(docs: seq<Document>, others: seq<Document>, t: DocType, thr: real, th: Theory)
    requires FiledAlike(docs, others, thr, th)
    ensures MapFor(docs, t, thr, th) == MapFor(others, t, thr, th)
  {
    if docs != [] {
      assert Twins(docs[|docs| - 1], others[|docs| - 1], thr, th);
      SameMapFor(docs[..|docs| - 1], others[..|docs| - 1], t, thr, th);
    }
  }

  lemma SameSkuSets(docs: seq<Document>, others: seq<Document>, thr: real, th: Theory)
    requires FiledAlike(docs, others, thr, th)
    ensures AllSkus(docs, thr, th) == AllSkus(others, thr, th)
    ensures forall sku :: OnFile(docs, sku, thr, th) == OnFile(others, sku, thr, th)
  {
    forall i | 0 <= i < |docs|
      ensures docs[i].docType == others[i].docType
      ensures MapFor(docs, docs[i].docType, thr, th) == MapFor(others, others[i].docType, thr, th)
    {
      assert Twins(docs[i], others[i], thr, th);
      SameMapFor(docs, others, docs[i].docType, thr, th);
    }
  }

  lemma SameUncertainTypes(docs: seq<Document>, others: seq<Document>, thr: real)
    requires AllShuffled(docs, others)
    ensures UncertainTypes(docs, thr) == UncertainTypes(others, thr)
  {
    forall i | 0 <= i < |docs|
      ensures UncertainItems(docs[i], thr) <==> UncertainItems(others[i], thr)
      ensures docs[i].docType == others[i].docType
    {
      assert Shuffled(docs[i], others[i]);
      SameWeakness(docs[i], others[i], thr);
    }
  }

  lemma LikelyWrongShuffled(docs: seq<Document>, others: seq<Document>, found: seq<Option<Item>>, thr: real, th: Theory)
    requires AllShuffled(docs, others) && |found| == |docs|
    requires LikelyWrongSku(docs, found, thr, th)
    ensures LikelyWrongSku(others, found, thr, th)
  {
    var i, j :| 0 <= i < |docs| && found[i].None? && 0 <= j < |docs| && found[j].Some?
                && exists k :: 0 <= k < |docs[i].items| && LikelySame(docs[i].items[k], found[j].value, thr, th);
    var k: nat :| k < |docs[i].items| && LikelySame(docs[i].items[k], found[j].value, thr, th);
    assert Shuffled(docs[i], others[i]);
    var n := Member(docs[i].items, others[i].items, k);
    assert LikelySame(others[i].items[n], found[j].value, thr, th);
  }

  lemma ShuffledBack(docs: seq<Document>, others: seq<Document>)
    requires AllShuffled(docs, others)
    ensures AllShuffled(others, docs)
    ensures forall i :: 0 <= i < |docs| ==> docs[i].docType == others[i].docType
  {
    forall i | 0 <= i < |docs| ensures Shuffled(others[i], docs[i]) { assert Shuffled(docs[i], others[i]); }
  }

  lemma SameAbsentSku(docs: seq<Document>, others: seq<Document>, found: seq<Option<Item>>, thr: real, th: Theory)
    requires AllShuffled(docs, others) && |found| == |docs|
    ensures AbsentSku(docs, found, thr, th) == AbsentSku(others, found, thr, th)
  {
    ShuffledBack(docs, others);
    SameUncertainTypes(docs, others, thr);
    if LikelyWrongSku(docs, found, thr, th) { LikelyWrongShuffled(docs, others, found, thr, th); }
    if LikelyWrongSku(others, found, thr, th) { LikelyWrongShuffled(others, docs, found, thr, th); }
  }

  lemma {:induction false} SameFirstPrice(docs: seq<Document>, others: seq<Document>, sku: string, thr: real,
      th: Theory)
    requires FiledAlike(docs, others, thr, th)
    ensures FirstPrice(docs, sku, thr, th) == FirstPrice(others, sku, thr, th)
  {
    if docs != [] {
      assert Twins(docs[0], others[0], thr, th);
      assert PriceIn(docs[0], sku, thr, th) == PriceIn(others[0], sku, thr, th);
      SameFirstPrice(docs[1..], others[1..], sku, thr, th);
    }
  }

  lemma {:induction false} SameFirstInvoice(docs: seq<Document>, others: seq<Document>)
    requires AllShuffled(docs, others)
    ensures FirstInvoice(docs) == FirstInvoice(others)
  {
    if docs != [] {
      assert Shuffled(docs[0], others[0]);
      SameFirstInvoice(docs[1..], others[1..]);
    }
  }

  lemma FiledConcat(a: seq<Document>, b: seq<Document>, c: seq<Document>, d: seq<Document>, thr: real, th: Theory)
    requires FiledAlike(a, c, thr, th) && FiledAlike(b, d, thr, th)
    ensures FiledAlike(a + b, c + d, thr, th)
  {
  }

  lemma SamePriceOrder(docs: seq<Document>, others: seq<Document>, thr: real, th: Theory)
    requires FiledAlike(docs, others, thr, th)
    ensures FiledAlike(PriceOrder(docs), PriceOrder(others), thr, th)
  {
    FiledMeansShuffled(docs, others, thr, th);
    SameFirstInvoice(docs, others);
    var n := FirstInvoice(docs);
    if n < |docs| {
      FiledConcat([docs[n]], docs[..n], [others[n]], others[..n], thr, th);
      FiledConcat([docs[n]] + docs[..n], docs[n + 1..], [others[n]] + others[..n], others[n + 1..], thr, th);
    }
  }

  lemma SameTrustedPrice(docs: seq<Document>, others: seq<Document>, sku: string, thr: real, th: Theory)
    requires FiledAlike(docs, others, thr, th)
    ensures TrustedPrice(docs, sku, thr, th) == TrustedPrice(others, sku, thr, th)
  {
    SamePriceOrder(docs, others, thr, th);
    SameFirstPrice(PriceOrder(docs), PriceOrder(others), sku, thr, th);
  }

  lemma SameQuantityCheck(docs: seq<Document>, others: seq<Document>, items: seq<Item>, sku: string, thr: real,
      th: Theory)
    requires FiledAlike(docs, others, thr, th)
    ensures QuantityCheck(docs, items, sku, thr, th) == QuantityCheck(others, items, sku, thr, th)
  {
    SameTrustedPrice(docs, others, sku, thr, th);
  }

  lemma SameSkuCheck(docs: seq<Document>, others: seq<Document>, sku: string, thr: real, th: Theory)
    requires FiledAlike(docs, others, thr, th)
    ensures SkuCheck(docs, sku, thr, th) == SkuCheck(others, sku, thr, th)
  {
    FiledMeansShuffled(docs, others, thr, th);
    SameSkuSets(docs, others, thr, th);
    var found := OnFile(docs, sku, thr, th);
    if exists i :: 0 <= i < |found| && found[i].None? {
      SameAbsentSku(docs, others, found, thr, th);
    } else {
      SameQuantityCheck(docs, others, Values(found), sku, thr, th);
    }
  }

  lemma {:induction false} SameSkuChecks(docs: seq<Document>, others: seq<Document>, skus: seq<string>, thr: real,
      th: Theory)
    requires FiledAlike(docs, others, thr, th)
    ensures SkuChecks(docs, skus, thr, th) == SkuChecks(others, skus, thr, th)
  {
    if skus != [] {
      SameSkuChecks(docs, others, skus[..|skus| - 1], thr, th);
      SameSkuCheck(docs, others, skus[|skus| - 1], thr, th);
    }
  }

  lemma SameEmptyCheck(docs: seq<Document>, others: seq<Document>)
    requires AllShuffled(docs, others)
    ensures EmptyCheck(docs) == EmptyCheck(others)
  {
    forall i | 0 <= i < |docs| ensures docs[i].items == [] <==> others[i].items == [] {
      assert Shuffled(docs[i], others[i]);
      SameWeakness(docs[i], others[i], 0.0);
    }
  }

  lemma SameAfterItems(docs: seq<Document>, others: seq<Document>, thr: real, th: Theory)
    requires FiledAlike(docs, others, thr, th)
    ensures AfterItems(docs, thr, th) == AfterItems(others, thr, th)
  {
    FiledMeansShuffled(docs, others, thr, th);
    SameSkuSets(docs, others, thr, th);
    SameSkuChecks(docs, others, StringOrder.SortedSet(AllSkus(docs, thr, th)), thr, th);
    SameEmptyCheck(docs, others);
  }

  lemma AlikeLines(docs: seq<Document>, others: seq<Document>, thr: real, th: Theory)
    requires FiledAlike(docs, others, thr, th)
    ensures Alike(LineMismatches(docs, thr, th), LineMismatches(others, thr, th))
  {
    FiledMeansShuffled(docs, others, thr, th);
    AlikeItemChecks(docs, others, thr, th);
    SameAfterItems(docs, others, thr, th);
    var rest := AfterItems(docs, thr, th);
    AlikeConcat(ItemChecks(docs, thr, th), rest, ItemChecks(others, thr, th), rest);
    LinesSplit(docs, thr, th);
    LinesSplit(others, thr, th);
  }

  // ---------------------------------------------------------------------------------------------
  // Main result
  // ---------------------------------------------------------------------------------------------

  lemma ShuffledInOrder(documents: map<DocType, Document>, others: map<DocType, Document>)
    requires documents.Keys == others.Keys && forall t :: t in documents ==> Shuffled(documents[t], others[t])
    ensures AllShuffled(InOrder(documents), InOrder(others))
  {
    assert forall t :: t in documents <==> t in others;
    forall t: DocType ensures AllShuffled(Present(documents, t), Present(others, t)) {}
  }

  lemma SameDecision(documents: map<DocType, Document>, others: map<DocType, Document>, thr: real, th: Theory)
    requires documents.Keys == others.Keys && FiledAlike(InOrder(documents), InOrder(others), thr, th)
    ensures StatusOf(Mismatches(documents, thr, th)) == StatusOf(Mismatches(others, thr, th))
  {
    var a, b := InOrder(documents), InOrder(others);
    FiledMeansShuffled(a, b, thr, th);
    SameHeader(documents, others, thr, th);
    SameTotalCheck(a, b, thr, th);
    AlikeLines(a, b, thr, th);
    var before := HeaderMismatches(documents, thr, th) + TotalCheck(a, thr, th);
    AlikeConcat(before, LineMismatches(a, thr, th), before, LineMismatches(b, thr, th));
    AlikeStatus(Mismatches(documents, thr, th), Mismatches(others, thr, th));
  }

  /**
   * Listing the items of any document in another order never changes the status, although of several
   * items with one SKU the item map keeps the last: then both orders are on HOLD.
   */
  lemma ItemOrderDoesNotMatter(documents: map<DocType, Document>, others: map<DocType, Document>, thr: real, th: Theory)
    requires documents.Keys == others.Keys && forall t :: t in documents ==> Shuffled(documents[t], others[t])
    ensures Reconcile(documents, thr, th).0 == Reconcile(others, thr, th).0
  {
    var a, b := InOrder(documents), InOrder(others);
    ShuffledInOrder(documents, others);
    if NoDuplicates(a, thr, th) {
      forall i | 0 <= i < |a| ensures Twins(a[i], b[i], thr, th) {
        SameItemMap(a[i], b[i], thr, th);
      }
      SameDecision(documents, others, thr, th);
    } else {
      var i :| 0 <= i < |a| && DuplicateSkus(a[i], thr, th) != [];
      DuplicatesAreMaterial(a, thr, th, i);
      AlikeItemChecks(a, b, thr, th);
      MaterialItemsHold(documents, thr, th);
      MaterialItemsHold(others, thr, th);
    }
  }
}
